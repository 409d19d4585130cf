/**
 * Request bodies of the lexicon-maintenance service's batch endpoints and
 * the insertion-ordered dictionaries the handlers build from them.
 *
 * A JSON value is known by its `str()` text; where a handler looks inside
 * it, also by its list elements (each by its `str()` text) or by its object
 * fields. A Python `dict` that a handler fills key by key keeps its keys in
 * first-insertion order; it is a list of key/value pairs with distinct keys.
 */
module Requests {
  import opened Text
  import opened LexSpec

  // ------------------------------------------------------------ values

  /** A JSON value of a request body. */
  datatype Value =
    | VStr(s: string)
    | VList(items: seq<string>, text: string)
    | VDict(spec: Spec, text: string)
    | VOther(text: string, truthy: bool)

  /** `str(v)` */
  function StrOf(v: Value): string
  {
    match v
    case VStr(s) => s
    case VList(_, t) => t
    case VDict(_, t) => t
    case VOther(t, _) => t
  }

  /** Python truthiness. */
  predicate IsTruthy(v: Value)
  {
    match v
    case VStr(s) => s != []
    case VList(xs, _) => xs != []
    case VDict(m, _) => m != map[]
    case VOther(_, b) => b
  }

  type Fields = map<string, Value>

  /** `str(d.get(key, default))` */
  function Get(d: Fields, key: string, default: string): string
  {
    if key in d then StrOf(d[key]) else default
  }

  /** `str(d.get(key) or "")` */
  function GetOr(d: Fields, key: string): string
  {
    if key in d && IsTruthy(d[key]) then StrOf(d[key]) else ""
  }

  /** `d.get(key)` when it is a string with text after stripping, stripped. */
  function StrField(d: Fields, key: string): Option<string>
  {
    if key in d && d[key].VStr? && Trim(d[key].s) != [] then Some(Trim(d[key].s)) else None
  }

  /** `d.get(key)` when it is an object, else `{}`. */
  function DictField(d: Fields, key: string): Spec
  {
    if key in d && d[key].VDict? then d[key].spec else map[]
  }

  /** `[str(x).strip() for x in xs if str(x).strip()]` */
  function CleanList(xs: seq<string>): (r: seq<string>)
    ensures forall t :: t in r ==> t != [] && Trim(t) == t
    decreases |xs|
  {
    if xs == [] then []
    else
      var rest := CleanList(xs[1..]);
      TrimIdempotent(xs[0]);
      if Trim(xs[0]) == [] then rest else [Trim(xs[0])] + rest
  }

  /**
   * An id is kept exactly when it is the stripped text of some element, and
   * nothing is kept exactly when every element is blank.
   */
  lemma {:induction false} CleanListSpec(xs: seq<string>)
    ensures forall t :: t in CleanList(xs) <==> t != [] && exists i :: 0 <= i < |xs| && Trim(xs[i]) == t
    ensures CleanList(xs) == [] <==> forall i :: 0 <= i < |xs| ==> IsBlank(xs[i])
    decreases |xs|
  {
    if xs != [] {
      CleanListSpec(xs[1..]);
      forall t ensures t in CleanList(xs) <==> t != [] && exists i :: 0 <= i < |xs| && Trim(xs[i]) == t {
        if t != [] && exists i :: 0 <= i < |xs| && Trim(xs[i]) == t {
          var i :| 0 <= i < |xs| && Trim(xs[i]) == t;
          if i > 0 { assert Trim(xs[1..][i - 1]) == t; }
        }
        if t in CleanList(xs[1..]) {
          var i :| 0 <= i < |xs[1..]| && Trim(xs[1..][i]) == t;
          assert Trim(xs[i + 1]) == t;
        }
      }
      if CleanList(xs) == [] {
        forall i | 0 <= i < |xs| ensures IsBlank(xs[i]) {
          if i > 0 { assert xs[i] == xs[1..][i - 1]; }
        }
      }
      if forall i :: 0 <= i < |xs| ==> IsBlank(xs[i]) {
        assert forall i :: 0 <= i < |xs[1..]| ==> IsBlank(xs[1..][i]) by {
          forall i | 0 <= i < |xs[1..]| ensures IsBlank(xs[1..][i]) { assert xs[1..][i] == xs[i + 1]; }
        }
      }
    }
  }

  /** The cleaned elements of a list-valued field (`d.get(key) or []`); any other value, or none, gives none. */
  function ListField(d: Fields, key: string): seq<string>
  {
    if key in d && d[key].VList? then CleanList(d[key].items) else []
  }

  // ------------------------------------------ insertion-ordered dicts

  type Dict<V> = seq<(string, V)>

  function Keys<V>(d: Dict<V>): (ks: seq<string>)
    ensures |ks| == |d| && forall i :: 0 <= i < |d| ==> ks[i] == d[i].0
  {
    seq(|d|, i requires 0 <= i < |d| => d[i].0)
  }

  /** `d.get(k)` */
  function DictGet<V>(d: Dict<V>, k: string): Option<V>
  {
    if k in Keys(d) then Some(d[IndexOf(Keys(d), k)].1) else None
  }

  /** `d[k] = v`: a present key keeps its place and takes the new value; a new key goes last. */
  function Put<V>(d: Dict<V>, k: string, v: V): Dict<V>
  {
    if k in Keys(d) then d[IndexOf(Keys(d), k) := (k, v)] else d + [(k, v)]
  }

  /**
   * After `d[k] = v` the keys stay distinct; the entry with key `k` takes
   * `v` in place, or `(k, v)` is added at the end; no other entry changes.
   */
  lemma PutAt<V>(d: Dict<V>, k: string, v: V)
    requires NoRepeats(Keys(d))
    ensures var r := Put(d, k, v);
      NoRepeats(Keys(r))
      && (k in Keys(d) ==> |r| == |d|)
      && (k !in Keys(d) ==> |r| == |d| + 1 && r[|d|] == (k, v))
      && forall j :: 0 <= j < |d| ==> r[j] == if d[j].0 == k then (k, v) else d[j]
  {
    if k in Keys(d) {
      var j0 := IndexOf(Keys(d), k);
      assert forall j :: 0 <= j < |d| && d[j].0 == k ==> Keys(d)[j] == Keys(d)[j0];
    }
  }

  /** `d[k] = v` adds `k` to the keys and no other key. */
  lemma PutKeys<V>(d: Dict<V>, k: string, v: V)
    ensures forall kk :: kk in Keys(Put(d, k, v)) <==> kk in Keys(d) || kk == k
  {
    var r := Put(d, k, v);
    if k in Keys(d) {
      assert Keys(r) == Keys(d);
    } else {
      assert Keys(r) == Keys(d) + [k];
    }
  }

  /** With distinct keys, `d.get(k)` is the value paired with `k`. */
  lemma DictGetAt<V>(d: Dict<V>, j: nat)
    requires NoRepeats(Keys(d)) && j < |d|
    ensures DictGet(d, d[j].0) == Some(d[j].1)
  {
    assert Keys(d)[j] == d[j].0;
    IndexOfUnique(Keys(d), d[j].0, j);
  }

  /** `d.setdefault(k, []).append(x)` */
  function Append<T>(d: Dict<seq<T>>, k: string, x: T): Dict<seq<T>>
  {
    if k in Keys(d) then
      var j := IndexOf(Keys(d), k);
      d[j := (k, d[j].1 + [x])]
    else d + [(k, [x])]
  }

  /**
   * After appending, the keys stay distinct; the list under `k` gains `x`
   * at its end, or `(k, [x])` is added at the end; no other entry changes.
   */
  lemma AppendAt<T>(d: Dict<seq<T>>, k: string, x: T)
    requires NoRepeats(Keys(d))
    ensures var r := Append(d, k, x);
      NoRepeats(Keys(r))
      && (k in Keys(d) ==> |r| == |d|)
      && (k !in Keys(d) ==> |r| == |d| + 1 && r[|d|] == (k, [x]))
      && forall j :: 0 <= j < |d| ==> r[j] == if d[j].0 == k then (k, d[j].1 + [x]) else d[j]
  {
    if k in Keys(d) {
      var j0 := IndexOf(Keys(d), k);
      assert forall j :: 0 <= j < |d| && d[j].0 == k ==> Keys(d)[j] == Keys(d)[j0];
    }
  }

  /** Appending under `k` adds `k` to the keys and no other key. */
  lemma AppendKeys<T>(d: Dict<seq<T>>, k: string, x: T)
    ensures forall kk :: kk in Keys(Append(d, k, x)) <==> kk in Keys(d) || kk == k
  {
    var r := Append(d, k, x);
    if k in Keys(d) {
      assert Keys(r) == Keys(d);
    } else {
      assert Keys(r) == Keys(d) + [k];
    }
  }

  // -------------------------------------------- filling and grouping

  /** `for (k, v) in rows: if k: d[k] = f(v)`: a repeated key keeps its place and takes the last value. */
  function PutRows(rows: seq<(string, string)>, f: string -> string): Dict<string>
    decreases |rows|
  {
    if rows == [] then []
    else
      var d := PutRows(rows[..|rows| - 1], f);
      var r := rows[|rows| - 1];
      if r.0 == [] then d else Put(d, r.0, f(r.1))
  }

  /** The keys are distinct and are exactly the non-empty keys of the rows. */
  lemma {:induction false} PutRowsKeys(rows: seq<(string, string)>, f: string -> string)
    ensures NoRepeats(Keys(PutRows(rows, f)))
    ensures forall k :: k in Keys(PutRows(rows, f)) <==> k != [] && exists i :: 0 <= i < |rows| && rows[i].0 == k
    decreases |rows|
  {
    if rows != [] {
      var n := |rows| - 1;
      PutRowsKeys(rows[..n], f);
      var d := PutRows(rows[..n], f);
      if rows[n].0 != [] { PutAt(d, rows[n].0, f(rows[n].1)); PutKeys(d, rows[n].0, f(rows[n].1)); }
      var r := PutRows(rows, f);
      forall k ensures k in Keys(r) <==> k != [] && exists i :: 0 <= i < |rows| && rows[i].0 == k {
        if k in Keys(d) {
          var i :| 0 <= i < n && rows[..n][i].0 == k;
          assert rows[i].0 == k;
        }
        if exists i :: 0 <= i < n && rows[i].0 == k {
          var i :| 0 <= i < n && rows[i].0 == k;
          assert rows[..n][i].0 == k;
        }
      }
    }
  }

  /** No later row has the key of row `i`. */
  predicate LastRow(rows: seq<(string, string)>, i: nat)
    requires i < |rows|
  {
    forall t :: i < t < |rows| ==> rows[t].0 != rows[i].0
  }

  /** Some row with key `k` is the last with it and its value maps to `v`. */
  predicate LastHolds(rows: seq<(string, string)>, k: string, v: string, f: string -> string)
  {
    exists i :: 0 <= i < |rows| && rows[i].0 == k && v == f(rows[i].1) && LastRow(rows, i)
  }

  lemma LastHoldsSnoc(rows: seq<(string, string)>, k: string, v: string, f: string -> string)
    requires rows != [] && rows[|rows| - 1].0 != k && LastHolds(rows[..|rows| - 1], k, v, f)
    ensures LastHolds(rows, k, v, f)
  {
    var n := |rows| - 1;
    var init := rows[..n];
    var i :| 0 <= i < n && init[i].0 == k && v == f(init[i].1) && LastRow(init, i);
    assert rows[i] == init[i];
    forall t | i < t < |rows| ensures rows[t].0 != rows[i].0 {
      if t < n { assert rows[t] == init[t]; }
    }
  }

  /** Each key carries `f` of the last row with that key. */
  lemma {:induction false} PutRowsValues(rows: seq<(string, string)>, f: string -> string)
    ensures forall j :: 0 <= j < |PutRows(rows, f)| ==> LastHolds(rows, PutRows(rows, f)[j].0, PutRows(rows, f)[j].1, f)
    decreases |rows|
  {
    if rows != [] {
      var n := |rows| - 1;
      var init := rows[..n];
      PutRowsValues(init, f);
      PutRowsKeys(init, f);
      var d := PutRows(init, f);
      var r := PutRows(rows, f);
      var k := rows[n].0;
      if k != [] { PutAt(d, k, f(rows[n].1)); }
      forall j | 0 <= j < |r| ensures LastHolds(rows, r[j].0, r[j].1, f) {
        if k != [] && r[j].0 == k {
          assert LastRow(rows, n);
        } else {
          assert j < |d| && r[j] == d[j];
          assert Keys(d)[j] == d[j].0;
          assert d[j].0 in Keys(d);
          LastHoldsSnoc(rows, d[j].0, d[j].1, f);
        }
      }
    }
  }

  /** `for k, v in d.items(): g.setdefault(key(v), []).append(k)`: keys in first-seen order. */
  function GroupBy(d: Dict<string>, key: string -> string): Dict<seq<string>>
    decreases |d|
  {
    if d == [] then []
    else Append(GroupBy(d[..|d| - 1], key), key(d[|d| - 1].1), d[|d| - 1].0)
  }

  /** Group keys are distinct, no group is empty, and every value's key has a group. */
  lemma {:induction false} GroupByKeys(d: Dict<string>, key: string -> string)
    ensures NoRepeats(Keys(GroupBy(d, key)))
    ensures forall j :: 0 <= j < |GroupBy(d, key)| ==> GroupBy(d, key)[j].1 != []
    ensures forall i :: 0 <= i < |d| ==> key(d[i].1) in Keys(GroupBy(d, key))
    decreases |d|
  {
    if d != [] {
      var n := |d| - 1;
      GroupByKeys(d[..n], key);
      var g := GroupBy(d[..n], key);
      AppendAt(g, key(d[n].1), d[n].0);
      AppendKeys(g, key(d[n].1), d[n].0);
      var r := GroupBy(d, key);
      forall i | 0 <= i < |d| ensures key(d[i].1) in Keys(r) {
        if i < n { assert d[..n][i] == d[i]; }
      }
    }
  }

  /** Some entry of `d` has key `x` and a value that `key` maps to `k`. */
  predicate InGroup(d: Dict<string>, x: string, k: string, key: string -> string)
  {
    exists i :: 0 <= i < |d| && d[i].0 == x && key(d[i].1) == k
  }

  lemma InGroupSnoc(d: Dict<string>, x: string, k: string, key: string -> string)
    requires d != []
    ensures InGroup(d, x, k, key) <==> InGroup(d[..|d| - 1], x, k, key) || (d[|d| - 1].0 == x && key(d[|d| - 1].1) == k)
  {
    var n := |d| - 1;
    var init := d[..n];
    if InGroup(d, x, k, key) {
      var i :| 0 <= i < |d| && d[i].0 == x && key(d[i].1) == k;
      if i < n {
        assert init[i] == d[i];
        assert InGroup(init, x, k, key);
      }
    }
    if InGroup(init, x, k, key) {
      var i :| 0 <= i < n && init[i].0 == x && key(init[i].1) == k;
      assert d[i] == init[i];
      assert InGroup(d, x, k, key);
    }
    if d[n].0 == x && key(d[n].1) == k {
      assert InGroup(d, x, k, key);
    }
  }

  /** A key is in a group exactly when its value maps to the group's key. */
  lemma {:induction false} GroupByMembers(d: Dict<string>, key: string -> string)
    ensures forall j, x :: 0 <= j < |GroupBy(d, key)| ==> (x in GroupBy(d, key)[j].1 <==> InGroup(d, x, GroupBy(d, key)[j].0, key))
    decreases |d|
  {
    if d != [] {
      var n := |d| - 1;
      var init := d[..n];
      GroupByMembers(init, key);
      GroupByKeys(init, key);
      var g := GroupBy(init, key);
      var k0 := key(d[n].1);
      AppendAt(g, k0, d[n].0);
      var r := GroupBy(d, key);
      forall j, x | 0 <= j < |r| ensures x in r[j].1 <==> InGroup(d, x, r[j].0, key) {
        InGroupSnoc(d, x, r[j].0, key);
        if j == |g| {
          assert r[j] == (k0, [d[n].0]) && k0 !in Keys(g);
          assert !InGroup(init, x, k0, key) by {
            forall i | 0 <= i < n && init[i].0 == x ensures key(init[i].1) != k0 {
              assert key(init[i].1) in Keys(g);
            }
          }
        }
      }
    }
  }

  /** With distinct keys, no group lists a key twice. */
  lemma {:induction false} GroupByDistinct(d: Dict<string>, key: string -> string)
    requires NoRepeats(Keys(d))
    ensures forall j :: 0 <= j < |GroupBy(d, key)| ==> NoRepeats(GroupBy(d, key)[j].1)
    decreases |d|
  {
    if d != [] {
      var n := |d| - 1;
      var init := d[..n];
      assert Keys(init) == Keys(d)[..n];
      GroupByDistinct(init, key);
      GroupByMembers(init, key);
      GroupByKeys(init, key);
      var g := GroupBy(init, key);
      var k0 := key(d[n].1);
      AppendAt(g, k0, d[n].0);
      forall j | 0 <= j < |g| && g[j].0 == k0 ensures d[n].0 !in g[j].1 {
        forall y | y in g[j].1 ensures y != d[n].0 {
          assert InGroup(init, y, g[j].0, key);
          var i :| 0 <= i < n && init[i].0 == y && key(init[i].1) == g[j].0;
          assert Keys(d)[i] == y && Keys(d)[n] == d[n].0;
        }
      }
    }
  }
}
