// Python's `sorted` / `list.sort`: a stable sort under a total preorder,
// and the code-point order on strings that `sorted` uses for `str` keys.

module Sorting {

  /** `le` is total and transitive, so it orders any list. */
  ghost predicate TotalPreorder<T(!new)>(le: (T, T) -> bool)
  {
    (forall a, b :: le(a, b) || le(b, a))
    && (forall a, b, c :: le(a, b) && le(b, c) ==> le(a, c))
  }

  predicate SortedBy<T>(s: seq<T>, le: (T, T) -> bool)
  {
    forall i, j :: 0 <= i < j < |s| ==> le(s[i], s[j])
  }

  /** Put `x` before the first element it does not exceed; equal elements keep their order. */
  function InsertBy<T>(x: T, s: seq<T>, le: (T, T) -> bool): (r: seq<T>)
    ensures |r| == |s| + 1
  {
    if s == [] || le(x, s[0]) then [x] + s else [s[0]] + InsertBy(x, s[1..], le)
  }

  /** Insertion sort from the back, so an earlier element stays ahead of an equal later one. */
  function SortBy<T>(s: seq<T>, le: (T, T) -> bool): (r: seq<T>)
    ensures |r| == |s|
  {
    if s == [] then [] else InsertBy(s[0], SortBy(s[1..], le), le)
  }

  lemma {:induction false} InsertBySpec<T(!new)>(x: T, s: seq<T>, le: (T, T) -> bool)
    requires TotalPreorder(le) && SortedBy(s, le)
    ensures SortedBy(InsertBy(x, s, le), le)
    ensures multiset(InsertBy(x, s, le)) == multiset(s) + multiset{x}
  {
    if s == [] || le(x, s[0]) {
      assert InsertBy(x, s, le) == [x] + s;
    } else {
      InsertBySpec(x, s[1..], le);
      assert s == [s[0]] + s[1..];
      var t := InsertBy(x, s[1..], le);
      assert InsertBy(x, s, le) == [s[0]] + t;
      forall k | 0 <= k < |t| ensures le(s[0], t[k]) {
        assert t[k] in multiset(t);
        if t[k] != x {
          assert t[k] in multiset(s[1..]);
          var m :| 0 <= m < |s[1..]| && s[1..][m] == t[k];
          assert s[1 + m] == t[k];
        }
      }
    }
  }

  /** The sort returns the same elements, in order. */
  lemma {:induction false} SortBySpec<T(!new)>(s: seq<T>, le: (T, T) -> bool)
    requires TotalPreorder(le)
    ensures SortedBy(SortBy(s, le), le)
    ensures multiset(SortBy(s, le)) == multiset(s)
  {
    if s != [] {
      SortBySpec(s[1..], le);
      InsertBySpec(s[0], SortBy(s[1..], le), le);
      assert s == [s[0]] + s[1..];
    }
  }

  /** The elements of `s` that satisfy `p`, in order. */
  function Keep<T>(s: seq<T>, p: T -> bool): (r: seq<T>)
    ensures |r| <= |s|
  {
    if s == [] then [] else (if p(s[0]) then [s[0]] else []) + Keep(s[1..], p)
  }

  /** The elements `le` cannot tell apart from `x`. */
  function EquivTo<T>(le: (T, T) -> bool, x: T): T -> bool
  {
    y => le(x, y) && le(y, x)
  }

  /**
   * The sort is stable: the elements equal to any `x` under `le` come out
   * in the order they went in.
   */
  lemma {:induction false} SortByStable<T(!new)>(s: seq<T>, le: (T, T) -> bool, x: T)
    requires TotalPreorder(le)
    ensures Keep(SortBy(s, le), EquivTo(le, x)) == Keep(s, EquivTo(le, x))
  {
    if s != [] {
      SortByStable(s[1..], le, x);
      InsertByKeep(s[0], SortBy(s[1..], le), le, x);
    }
  }

  /** Inserting `x0` puts it behind every element equal to it that precedes the insertion point: there is none. */
  lemma {:induction false} InsertByKeep<T(!new)>(x0: T, t: seq<T>, le: (T, T) -> bool, x: T)
    requires TotalPreorder(le)
    ensures Keep(InsertBy(x0, t, le), EquivTo(le, x)) == Keep([x0] + t, EquivTo(le, x))
  {
    var p := EquivTo(le, x);
    if t != [] && !le(x0, t[0]) {
      InsertByKeep(x0, t[1..], le, x);
      assert !(p(x0) && p(t[0]));
      assert ([x0] + t)[1..] == t;
      assert ([x0] + t[1..])[1..] == t[1..];
      assert InsertBy(x0, t, le)[1..] == InsertBy(x0, t[1..], le);
    }
  }

  // ------------------------------------------------------- strings

  /** Python's `a <= b` on strings: code point by code point, a prefix first. */
  predicate StrLe(a: string, b: string)
  {
    a == [] || (b != [] && (a[0] < b[0] || (a[0] == b[0] && StrLe(a[1..], b[1..]))))
  }

  function StrLeFn(): (string, string) -> bool { (a: string, b: string) => StrLe(a, b) }

  lemma {:induction false} StrLeTotal(a: string, b: string)
    ensures StrLe(a, b) || StrLe(b, a)
  {
    if a != [] && b != [] && a[0] == b[0] {
      StrLeTotal(a[1..], b[1..]);
    }
  }

  lemma {:induction false} StrLeTrans(a: string, b: string, c: string)
    requires StrLe(a, b) && StrLe(b, c)
    ensures StrLe(a, c)
  {
    if a != [] && b != [] && c != [] && a[0] == b[0] && b[0] == c[0] {
      StrLeTrans(a[1..], b[1..], c[1..]);
    }
  }

  lemma {:induction false} StrLeAntisym(a: string, b: string)
    requires StrLe(a, b) && StrLe(b, a)
    ensures a == b
  {
    if a != [] && b != [] {
      StrLeAntisym(a[1..], b[1..]);
      assert a == [a[0]] + a[1..] && b == [b[0]] + b[1..];
    }
  }

  /** The string order is a total order. */
  lemma StrOrder()
    ensures TotalPreorder(StrLeFn())
    ensures forall a, b :: StrLe(a, b) && StrLe(b, a) ==> a == b
  {
    forall a, b ensures StrLe(a, b) || StrLe(b, a) { StrLeTotal(a, b); }
    forall a, b, c | StrLe(a, b) && StrLe(b, c) ensures StrLe(a, c) { StrLeTrans(a, b, c); }
    forall a, b | StrLe(a, b) && StrLe(b, a) ensures a == b { StrLeAntisym(a, b); }
  }

  /** `sorted(xs)` for strings. */
  function SortStrings(xs: seq<string>): (r: seq<string>)
    ensures |r| == |xs|
  {
    SortBy(xs, StrLeFn())
  }

  /** Sorting distinct strings gives them in strictly increasing order. */
  lemma SortStringsSpec(xs: seq<string>)
    ensures multiset(SortStrings(xs)) == multiset(xs)
    ensures forall i, j :: 0 <= i < j < |xs| ==> StrLe(SortStrings(xs)[i], SortStrings(xs)[j])
  {
    StrOrder();
    SortBySpec(xs, StrLeFn());
  }
  /** Two sorted lists of the same strings are the same list: `sorted` depends only on the multiset. */
  lemma {:induction false} SortedStringsUnique(a: seq<string>, b: seq<string>)
    requires SortedBy(a, StrLeFn()) && SortedBy(b, StrLeFn())
    requires multiset(a) == multiset(b)
    ensures a == b
    decreases |a|
  {
    if a == [] {
      assert |b| == |multiset(b)| == 0;
    } else {
      assert |b| == |multiset(b)| == |a|;
      SortedHeads(a, b);
      assert a == [a[0]] + a[1..] && b == [b[0]] + b[1..];
      assert multiset(a[1..]) == multiset(a) - multiset{a[0]};
      assert multiset(b[1..]) == multiset(b) - multiset{a[0]};
      SortedTail(a);
      SortedTail(b);
      SortedStringsUnique(a[1..], b[1..]);
    }
  }

  /** Both lists start with the least of their common elements. */
  lemma SortedHeads(a: seq<string>, b: seq<string>)
    requires a != [] && b != []
    requires SortedBy(a, StrLeFn()) && SortedBy(b, StrLeFn())
    requires multiset(a) == multiset(b)
    ensures a[0] == b[0]
  {
    assert a[0] in multiset(b) && b[0] in multiset(a);
    var k :| 0 <= k < |b| && b[k] == a[0];
    var m :| 0 <= m < |a| && a[m] == b[0];
    if k > 0 && m > 0 {
      assert StrLeFn()(b[0], b[k]) && StrLeFn()(a[0], a[m]);
      StrLeAntisym(a[0], b[0]);
    }
  }

  lemma SortedTail(a: seq<string>)
    requires a != [] && SortedBy(a, StrLeFn())
    ensures SortedBy(a[1..], StrLeFn())
  {
    forall i, j | 0 <= i < j < |a| - 1 ensures StrLeFn()(a[1..][i], a[1..][j]) {
      assert a[1..][i] == a[i + 1] && a[1..][j] == a[j + 1];
    }
  }

  // ------------------------------------------------------- integer sets

  /** There is a least element in a non-empty set of integers. */
  lemma {:induction false} LeastExists(s: set<int>)
    requires s != {}
    ensures exists m :: m in s && forall y :: y in s ==> m <= y
    decreases |s|
  {
    assert (forall b :: b !in s) ==> s == {};
    var a :| a in s;
    if s != {a} {
      LeastExists(s - {a});
      var m :| m in s - {a} && forall y :: y in s - {a} ==> m <= y;
      var least := if a < m then a else m;
      forall y | y in s ensures least <= y {
        if y != a { assert y in s - {a}; }
      }
      assert least in s;
    } else {
      assert forall y :: y in s ==> a <= y;
    }
  }

  function Least(s: set<int>): (m: int)
    requires s != {}
    ensures m in s && forall y :: y in s ==> m <= y
  {
    LeastExists(s);
    var m :| m in s && forall y :: y in s ==> m <= y;
    m
  }

  /** `sorted(s)` for a set of integers: each once, in increasing order. */
  function SortedSet(s: set<int>): (r: seq<int>)
    ensures |r| == |s|
    ensures forall x :: x in r <==> x in s
    ensures forall i, j :: 0 <= i < j < |r| ==> r[i] < r[j]
    decreases |s|
  {
    if s == {} then []
    else
      var m := Least(s);
      var rest := SortedSet(s - {m});
      assert forall j :: 0 <= j < |rest| ==> m < rest[j] by {
        forall j | 0 <= j < |rest| ensures m < rest[j] { assert rest[j] in s - {m}; }
      }
      [m] + rest
  }
}
