/**
 * String helpers shared by the whole model: the subset of Python's `str`
 * methods the Mobius scripts rely on (strip, lower, upper, `in`, replace,
 * slicing, `re.sub(r"\s+", " ", s)`), stated over `seq<char>`.
 */
module Text {

  datatype Option<T> = None | Some(value: T)

  /** The characters Python's `str.strip()` and the regex class `\s` treat as whitespace (ASCII). */
  predicate IsSpace(c: char) {
    c == ' ' || c == '\t' || c == '\n' || c == '\r' || c == '\U{0B}' || c == '\U{0C}'
  }

  predicate IsDigit(c: char) { '0' as int <= c as int <= '9' as int }
  predicate IsLowerAlpha(c: char) { 'a' <= c <= 'z' }
  predicate IsUpperAlpha(c: char) { 'A' <= c <= 'Z' }

  predicate AllSpace(s: string) { forall i :: 0 <= i < |s| ==> IsSpace(s[i]) }

  // ---------------------------------------------------------------- strip

  /** `s.lstrip()` */
  function TrimLeft(s: string): (r: string)
    ensures |r| <= |s|
  {
    if |s| > 0 && IsSpace(s[0]) then TrimLeft(s[1..]) else s
  }

  /** `s.rstrip()` */
  function TrimRight(s: string): (r: string)
    ensures |r| <= |s|
  {
    if |s| > 0 && IsSpace(s[|s| - 1]) then TrimRight(s[..|s| - 1]) else s
  }

  /** `s.strip()` */
  function Trim(s: string): (r: string)
    ensures |r| <= |s|
  {
    TrimRight(TrimLeft(s))
  }

  /** `lstrip` drops a whitespace prefix and leaves a string that does not start with whitespace. */
  lemma {:induction false} TrimLeftSpec(s: string)
    ensures var r := TrimLeft(s);
      |r| <= |s| && r == s[|s| - |r|..] && (r == [] || !IsSpace(r[0])) && AllSpace(s[..|s| - |r|])
  {
    if |s| > 0 && IsSpace(s[0]) {
      TrimLeftSpec(s[1..]);
      var t := TrimLeft(s[1..]);
      assert s[..|s| - |t|] == [s[0]] + s[1..][..|s[1..]| - |t|];
    }
  }

  /** `rstrip` drops a whitespace suffix and leaves a string that does not end with whitespace. */
  lemma {:induction false} TrimRightSpec(s: string)
    ensures var r := TrimRight(s);
      |r| <= |s| && r == s[..|r|] && (r == [] || !IsSpace(r[|r| - 1])) && AllSpace(s[|r|..])
  {
    if |s| > 0 && IsSpace(s[|s| - 1]) {
      TrimRightSpec(s[..|s| - 1]);
      var t := TrimRight(s[..|s| - 1]);
      assert s[|t|..] == s[..|s| - 1][|t|..] + [s[|s| - 1]];
    }
  }

  /** `strip` never lengthens and leaves no whitespace at either end. */
  lemma TrimSpec(s: string)
    ensures var r := Trim(s);
      |r| <= |s| && (r == [] || (!IsSpace(r[0]) && !IsSpace(r[|r| - 1])))
  {
    TrimLeftSpec(s);
    TrimRightSpec(TrimLeft(s));
    var l := TrimLeft(s);
    var r := TrimRight(l);
    if r != [] {
      assert r[0] == l[0];
    }
  }

  predicate IsBlank(s: string) { Trim(s) == [] }

  lemma TrimLeftFixed(s: string)
    requires s == [] || !IsSpace(s[0])
    ensures TrimLeft(s) == s
  {}

  lemma TrimRightFixed(s: string)
    requires s == [] || !IsSpace(s[|s| - 1])
    ensures TrimRight(s) == s
  {}

  /** Stripping twice is stripping once. */
  lemma {:induction false} TrimIdempotent(s: string)
    ensures Trim(Trim(s)) == Trim(s)
  {
    var t := Trim(s);
    TrimSpec(s);
    TrimLeftFixed(t);
    TrimRightFixed(t);
  }

  /** Stripping only removes characters: every character of the result occurs in the input. */
  lemma TrimChars(s: string)
    ensures forall k :: 0 <= k < |Trim(s)| ==> Trim(s)[k] in s
  {
    var l := TrimLeft(s);
    var r := TrimRight(l);
    TrimLeftSpec(s);
    TrimRightSpec(l);
    forall k | 0 <= k < |r| ensures r[k] in s {
      assert r[k] == l[k];
      assert l[k] == s[|s| - |l| + k];
    }
  }

  lemma {:induction false} AllSpaceTrimLeft(s: string)
    requires AllSpace(s)
    ensures TrimLeft(s) == []
  {
    if s != [] {
      AllSpaceTrimLeft(s[1..]);
    }
  }

  lemma {:induction false} NotAllSpaceTrimLeft(s: string, i: nat)
    requires i < |s| && !IsSpace(s[i])
    ensures TrimLeft(s) != []
  {
    if IsSpace(s[0]) {
      NotAllSpaceTrimLeft(s[1..], i - 1);
    }
  }

  lemma TrimRightKeepsNonSpace(l: string)
    requires l != [] && !IsSpace(l[0])
    ensures TrimRight(l) != []
  {
    assert l[0..] == l;
  }

  /** A string strips to "" exactly when every character is whitespace. */
  lemma {:induction false} BlankIffAllSpace(s: string)
    ensures IsBlank(s) <==> AllSpace(s)
  {
    if AllSpace(s) {
      AllSpaceTrimLeft(s);
    } else {
      var i :| 0 <= i < |s| && !IsSpace(s[i]);
      NotAllSpaceTrimLeft(s, i);
      TrimLeftSpec(s);
      TrimRightKeepsNonSpace(TrimLeft(s));
    }
  }

  // ---------------------------------------------------------- lower/upper

  /** ASCII `str.lower()` on one character. */
  function LowerChar(c: char): char { if IsUpperAlpha(c) then (c as int + 32) as char else c }
  /** ASCII `str.upper()` on one character. */
  function UpperChar(c: char): char { if IsLowerAlpha(c) then (c as int - 32) as char else c }

  function Lower(s: string): (r: string)
    ensures |r| == |s|
    ensures forall i :: 0 <= i < |s| ==> r[i] == LowerChar(s[i])
  {
    if s == [] then [] else [LowerChar(s[0])] + Lower(s[1..])
  }

  function Upper(s: string): (r: string)
    ensures |r| == |s|
    ensures forall i :: 0 <= i < |s| ==> r[i] == UpperChar(s[i])
  {
    if s == [] then [] else [UpperChar(s[0])] + Upper(s[1..])
  }

  predicate NoUpper(s: string) { forall i :: 0 <= i < |s| ==> !IsUpperAlpha(s[i]) }

  /** Lowercasing leaves no upper-case letter and changes nothing else than letters. */
  lemma LowerNoUpper(s: string)
    ensures NoUpper(Lower(s))
  {}

  lemma LowerIdempotent(s: string)
    ensures Lower(Lower(s)) == Lower(s)
  {}

  lemma LowerFixed(s: string)
    requires NoUpper(s)
    ensures Lower(s) == s
  {}

  /** Lowercasing commutes with stripping (both are ASCII and letters are not whitespace). */
  lemma {:induction false} LowerTrimLeft(s: string)
    ensures Lower(TrimLeft(s)) == TrimLeft(Lower(s))
  {
    if |s| > 0 {
      var l := Lower(s);
      assert l[0] == LowerChar(s[0]);
      assert IsSpace(l[0]) == IsSpace(s[0]);
      if IsSpace(s[0]) {
        assert l[1..] == Lower(s[1..]);
        LowerTrimLeft(s[1..]);
      }
    }
  }

  lemma {:induction false} LowerTrimRight(s: string)
    ensures Lower(TrimRight(s)) == TrimRight(Lower(s))
  {
    if |s| > 0 {
      var l := Lower(s);
      assert l[|s| - 1] == LowerChar(s[|s| - 1]);
      assert IsSpace(l[|s| - 1]) == IsSpace(s[|s| - 1]);
      if IsSpace(s[|s| - 1]) {
        assert l[..|s| - 1] == Lower(s[..|s| - 1]);
        LowerTrimRight(s[..|s| - 1]);
      }
    }
  }

  lemma LowerTrim(s: string)
    ensures Lower(Trim(s)) == Trim(Lower(s))
  {
    LowerTrimLeft(s);
    LowerTrimRight(TrimLeft(s));
  }

  // ------------------------------------------------------------ substring

  predicate IsPrefix(p: string, s: string) { |p| <= |s| && s[..|p|] == p }
  predicate IsSuffix(p: string, s: string) { |p| <= |s| && s[|s| - |p|..] == p }

  /** Python's `t in s`. */
  predicate Contains(s: string, t: string)
    decreases |s|
  {
    IsPrefix(t, s) || (|s| > 0 && Contains(s[1..], t))
  }

  /** `t` occurs in `s` starting at index `i`. */
  predicate OccursAt(s: string, t: string, i: nat) { i + |t| <= |s| && s[i..i + |t|] == t }

  /** `Contains` is witnessed by a position where `t` occurs. */
  lemma {:induction false} ContainsAt(s: string, t: string)
    ensures Contains(s, t) <==> exists i: nat :: OccursAt(s, t, i)
    decreases |s|
  {
    if |s| > 0 {
      ContainsAt(s[1..], t);
      if exists i: nat :: OccursAt(s, t, i) {
        var i: nat :| OccursAt(s, t, i);
        if i > 0 {
          assert s[1..][i - 1..i - 1 + |t|] == s[i..i + |t|];
          assert OccursAt(s[1..], t, i - 1);
        }
      }
      if Contains(s[1..], t) && !IsPrefix(t, s) {
        var j: nat :| OccursAt(s[1..], t, j);
        assert s[1..][j..j + |t|] == s[j + 1..j + 1 + |t|];
        assert OccursAt(s, t, j + 1);
      }
      if IsPrefix(t, s) { assert OccursAt(s, t, 0); }
    } else {
      if exists i: nat :: OccursAt(s, t, i) {
        var i: nat :| OccursAt(s, t, i);
        assert |t| == 0;
        assert IsPrefix(t, s);
      }
      if |t| == 0 { assert OccursAt(s, t, 0); }
    }
  }

  /** Python `s[:n]`. */
  function Take(s: string, n: nat): (r: string)
    ensures |r| <= n && IsPrefix(r, s)
    ensures |s| <= n ==> r == s
    ensures |s| > n ==> |r| == n
  {
    if |s| <= n then s else s[..n]
  }

  /** `x or default` for an optional string: the default when `x` is missing or empty. */
  function OrElse(x: Option<string>, default: string): (r: string)
    ensures x.Some? && x.value != [] ==> r == x.value
    ensures x.None? || x.value == [] ==> r == default
  {
    if x.Some? && x.value != [] then x.value else default
  }

  /** `sep.join(parts)` */
  function Join(parts: seq<string>, sep: string): (r: string)
    ensures parts == [] ==> r == []
    ensures |parts| == 1 ==> r == parts[0]
  {
    if parts == [] then []
    else if |parts| == 1 then parts[0]
    else parts[0] + sep + Join(parts[1..], sep)
  }

  // ---------------------------------------------------- replace one char

  /** `s.replace(c, rep)` for a one-character pattern. */
  function ReplaceChar(s: string, c: char, rep: string): string
    decreases |s|
  {
    if s == [] then []
    else (if s[0] == c then rep else [s[0]]) + ReplaceChar(s[1..], c, rep)
  }

  /**
   * After replacing `c` by a text without `c`, no `c` is left; a string
   * without `c` is unchanged; a one-character replacement keeps the length.
   */
  lemma {:induction false} ReplaceCharSpec(s: string, c: char, rep: string)
    ensures var r := ReplaceChar(s, c, rep);
      ((forall k :: 0 <= k < |rep| ==> rep[k] != c) ==> forall k :: 0 <= k < |r| ==> r[k] != c)
      && ((forall k :: 0 <= k < |s| ==> s[k] != c) ==> r == s)
      && (|rep| == 1 ==> |r| == |s|)
    decreases |s|
  {
    if s != [] {
      ReplaceCharSpec(s[1..], c, rep);
      var head := if s[0] == c then rep else [s[0]];
      var r := ReplaceChar(s, c, rep);
      var t := ReplaceChar(s[1..], c, rep);
      assert r == head + t;
      if forall k :: 0 <= k < |rep| ==> rep[k] != c {
        assert forall k :: 0 <= k < |head| ==> head[k] != c;
        forall k | 0 <= k < |r| ensures r[k] != c {
          if k >= |head| { assert r[k] == t[k - |head|]; }
        }
      }
      if forall k :: 0 <= k < |s| ==> s[k] != c {
        assert forall k :: 0 <= k < |s[1..]| ==> s[1..][k] != c;
        assert s == [s[0]] + s[1..];
      }
    }
  }

  // ---------------------------------------------- replace a longer string

  /** `s.replace(pat, rep)`: leftmost, non-overlapping occurrences. */
  function Replace(s: string, pat: string, rep: string): (r: string)
    requires |pat| > 0
    ensures !Contains(s, pat) ==> r == s
    decreases |s|
  {
    if |s| < |pat| then
      NotContainsShort(s, pat);
      s
    else if s[..|pat|] == pat then rep + Replace(s[|pat|..], pat, rep)
    else [s[0]] + Replace(s[1..], pat, rep)
  }

  lemma NotContainsShort(s: string, t: string)
    requires |s| < |t|
    ensures !Contains(s, t)
  {}

  // ----------------------------------------------- whitespace collapsing

  /** `re.sub(r"\s+", " ", s)`: every maximal whitespace run becomes one space. */
  function Squeeze(s: string): (r: string)
    ensures |r| <= |s|
    ensures r == [] <==> s == []
    ensures s != [] ==> (IsSpace(s[0]) <==> r[0] == ' ')
    ensures s != [] ==> (IsSpace(s[|s| - 1]) <==> r[|r| - 1] == ' ')
    decreases |s|
  {
    if s == [] then []
    else if IsSpace(s[0]) then
      var t := TrimLeft(s[1..]);
      TrimLeftSpec(s[1..]);
      assert t != [] ==> t[|t| - 1] == s[|s| - 1];
      assert t == [] ==> s[|s| - 1] == s[..|s| - |t|][|s| - 1 - |t|];
      [' '] + Squeeze(t)
    else [s[0]] + Squeeze(s[1..])
  }

  /** Two spaces in a row at `i`. */
  predicate SpacePairAt(s: string, i: int) { 0 <= i < |s| - 1 && s[i] == ' ' && s[i + 1] == ' ' }

  /** The normal form produced by `re.sub(r"\s+", " ", s).strip()`. */
  predicate Collapsed(s: string) {
    && (forall i :: 0 <= i < |s| ==> IsSpace(s[i]) ==> s[i] == ' ')
    && (forall i :: 0 <= i < |s| - 1 ==> !SpacePairAt(s, i))
    && (s == [] || (s[0] != ' ' && s[|s| - 1] != ' '))
  }

  predicate SqueezedShape(r: string) {
    && (forall i :: 0 <= i < |r| ==> IsSpace(r[i]) ==> r[i] == ' ')
    && (forall i :: 0 <= i < |r| - 1 ==> !SpacePairAt(r, i))
  }

  lemma ConsShape(c: char, u: string)
    requires SqueezedShape(u)
    requires !IsSpace(c) || (c == ' ' && (u == [] || u[0] != ' '))
    ensures SqueezedShape([c] + u)
  {
    var r := [c] + u;
    forall i | 0 <= i < |r| ensures IsSpace(r[i]) ==> r[i] == ' ' {
      if i > 0 { assert r[i] == u[i - 1]; }
    }
    forall i | 0 <= i < |r| - 1 ensures !SpacePairAt(r, i) {
      if i > 0 { assert r[i] == u[i - 1] && r[i + 1] == u[i] && !SpacePairAt(u, i - 1); }
    }
  }

  lemma {:induction false} SqueezeShape(s: string)
    ensures SqueezedShape(Squeeze(s))
    decreases |s|
  {
    if s == [] {
    } else if IsSpace(s[0]) {
      var t := TrimLeft(s[1..]);
      TrimLeftSpec(s[1..]);
      SqueezeShape(t);
      ConsShape(' ', Squeeze(t));
    } else {
      SqueezeShape(s[1..]);
      ConsShape(s[0], Squeeze(s[1..]));
    }
  }

  /** `re.sub(r"\s+", " ", s.strip())` */
  function CollapseWs(s: string): (r: string)
    ensures Collapsed(r)
    ensures |r| <= |s|
  {
    var t := Trim(s);
    TrimSpec(s);
    SqueezeShape(t);
    Squeeze(t)
  }

  lemma {:induction false} SqueezeFixed(s: string)
    requires SqueezedShape(s)
    ensures Squeeze(s) == s
    decreases |s|
  {
    if s != [] {
      assert SqueezedShape(s[1..]) by {
        forall i | 0 <= i < |s[1..]| - 1
          ensures !SpacePairAt(s[1..], i)
        {
          assert s[1..][i] == s[i + 1] && !SpacePairAt(s, i + 1);
        }
      }
      if IsSpace(s[0]) {
        assert s[0] == ' ';
        if |s| > 1 { assert !SpacePairAt(s, 0) && !IsSpace(s[1]); }
        TrimLeftFixed(s[1..]);
      }
      SqueezeFixed(s[1..]);
    }
  }

  /** Collapsing is idempotent: a collapsed string is its own collapse. */
  lemma {:induction false} CollapseWsFixed(s: string)
    requires Collapsed(s)
    ensures CollapseWs(s) == s
  {
    TrimLeftFixed(s);
    TrimRightFixed(s);
    SqueezeFixed(s);
  }

  lemma CollapseWsIdempotent(s: string)
    ensures CollapseWs(CollapseWs(s)) == CollapseWs(s)
  {
    CollapseWsFixed(CollapseWs(s));
  }

  // ---------------------------------------------------- decimal numerals

  function DigitChar(d: nat): char
    requires d < 10
  {
    ('0' as int + d) as char
  }

  /** `str(n)` for a natural number. */
  function NatToString(n: nat): (r: string)
    ensures |r| >= 1
    ensures forall i :: 0 <= i < |r| ==> IsDigit(r[i])
    decreases n
  {
    if n < 10 then [DigitChar(n)] else NatToString(n / 10) + [DigitChar(n % 10)]
  }

  /** `str(n)` for any integer. */
  function IntToString(n: int): (r: string)
    ensures r != []
  {
    if n < 0 then "-" + NatToString(-n) else NatToString(n)
  }

  /** Reads a string of decimal digits (`int(s)` on `s.isdigit()` input). */
  function ParseNat(s: string): nat
    requires forall i :: 0 <= i < |s| ==> IsDigit(s[i])
    decreases |s|
  {
    if s == [] then 0
    else
      assert IsDigit(s[|s| - 1]);
      10 * ParseNat(s[..|s| - 1]) + (s[|s| - 1] as int - '0' as int)
  }

  /** Printing then reading a number gives the number back. */
  lemma {:induction false} ParseNatToString(n: nat)
    ensures ParseNat(NatToString(n)) == n
    decreases n
  {
    if n >= 10 {
      var s := NatToString(n);
      assert s[..|s| - 1] == NatToString(n / 10);
      ParseNatToString(n / 10);
    }
  }

  /** `f"{n:03d}"`: at least three digits, left-padded with zeros. */
  function Pad3(n: nat): (r: string)
    ensures |r| >= 3
    ensures forall i :: 0 <= i < |r| ==> IsDigit(r[i])
    ensures ParseNat(r) == n
  {
    var d := NatToString(n);
    ParseNatToString(n);
    var z := seq(if |d| >= 3 then 0 else 3 - |d|, _ => '0');
    LeadingZeros(z, d);
    z + d
  }

  lemma {:induction false} LeadingZeros(z: string, d: string)
    requires forall i :: 0 <= i < |z| ==> z[i] == '0'
    requires forall i :: 0 <= i < |d| ==> IsDigit(d[i])
    ensures forall i :: 0 <= i < |z + d| ==> IsDigit((z + d)[i])
    ensures ParseNat(z + d) == ParseNat(d)
    decreases |d|
  {
    if d == [] {
      ZerosParse(z);
      assert z + d == z;
    } else {
      assert (z + d)[..|z + d| - 1] == z + d[..|d| - 1];
      LeadingZeros(z, d[..|d| - 1]);
    }
  }

  lemma {:induction false} ZerosParse(z: string)
    requires forall i :: 0 <= i < |z| ==> z[i] == '0'
    ensures ParseNat(z) == 0
    decreases |z|
  {
    if z != [] { ZerosParse(z[..|z| - 1]); }
  }

  // ------------------------------------------------------------ sequences

  /** `[f(x) for x in xs]` */
  function MapSeq<A, B>(xs: seq<A>, f: A -> B): (ys: seq<B>)
    ensures |ys| == |xs|
    decreases |xs|
  {
    if xs == [] then [] else MapSeq(xs[..|xs| - 1], f) + [f(xs[|xs| - 1])]
  }

  lemma {:induction false} MapSeqAt<A, B>(xs: seq<A>, f: A -> B, i: nat)
    requires i < |xs|
    ensures MapSeq(xs, f)[i] == f(xs[i])
    decreases |xs|
  {
    var k := |xs|;
    if i < k - 1 {
      MapSeqAt(xs[..k - 1], f, i);
      assert xs[..k - 1][i] == xs[i];
    }
  }

  /** How many elements satisfy `p`: `sum(1 for x in xs if p(x))`. */
  function CountIf<T>(xs: seq<T>, p: T -> bool): (n: nat)
    ensures n <= |xs|
    decreases |xs|
  {
    if xs == [] then 0 else CountIf(xs[..|xs| - 1], p) + (if p(xs[|xs| - 1]) then 1 else 0)
  }

  /** A weaker condition counts at least as many elements. */
  lemma {:induction false} CountIfImplies<T>(xs: seq<T>, p: T -> bool, r: T -> bool)
    requires forall i :: 0 <= i < |xs| ==> p(xs[i]) ==> r(xs[i])
    ensures CountIf(xs, p) <= CountIf(xs, r)
    decreases |xs|
  {
    if xs != [] {
      var n := |xs|;
      assert forall i :: 0 <= i < n - 1 ==> xs[..n - 1][i] == xs[i];
      CountIfImplies(xs[..n - 1], p, r);
    }
  }

  /** Conditions that agree on every element count the same. */
  lemma {:induction false} CountIfSame<T>(xs: seq<T>, p: T -> bool, r: T -> bool)
    requires forall i :: 0 <= i < |xs| ==> p(xs[i]) == r(xs[i])
    ensures CountIf(xs, p) == CountIf(xs, r)
    decreases |xs|
  {
    if xs != [] {
      var n := |xs|;
      assert forall i :: 0 <= i < n - 1 ==> xs[..n - 1][i] == xs[i];
      CountIfSame(xs[..n - 1], p, r);
    }
  }

  /** Two conditions that never hold together count at most all elements between them. */
  lemma {:induction false} CountIfDisjoint<T>(xs: seq<T>, p: T -> bool, r: T -> bool)
    requires forall i :: 0 <= i < |xs| ==> !(p(xs[i]) && r(xs[i]))
    ensures CountIf(xs, p) + CountIf(xs, r) <= |xs|
    decreases |xs|
  {
    if xs != [] {
      var n := |xs|;
      assert forall i :: 0 <= i < n - 1 ==> xs[..n - 1][i] == xs[i];
      CountIfDisjoint(xs[..n - 1], p, r);
    }
  }

  /** Complementary conditions split the elements between them. */
  lemma {:induction false} CountIfSplit<T>(xs: seq<T>, p: T -> bool, r: T -> bool)
    requires forall i :: 0 <= i < |xs| ==> (p(xs[i]) <==> !r(xs[i]))
    ensures CountIf(xs, p) + CountIf(xs, r) == |xs|
    decreases |xs|
  {
    if xs != [] {
      var n := |xs|;
      assert forall i :: 0 <= i < n - 1 ==> xs[..n - 1][i] == xs[i];
      CountIfSplit(xs[..n - 1], p, r);
    }
  }

  /** `[x for x in xs if p(x)]` */
  function Filter<T(!new)>(xs: seq<T>, p: T -> bool): (r: seq<T>)
    ensures |r| == CountIf(xs, p)
    ensures forall x :: x in r <==> x in xs && p(x)
    decreases |xs|
  {
    if xs == [] then []
    else
      var init := Filter(xs[..|xs| - 1], p);
      assert xs == xs[..|xs| - 1] + [xs[|xs| - 1]];
      if p(xs[|xs| - 1]) then init + [xs[|xs| - 1]] else init
  }

  /** Filtering keeps every copy of an element that passes and no copy of one that does not. */
  lemma {:induction false} FilterCounts<T(!new)>(xs: seq<T>, p: T -> bool, x: T)
    ensures multiset(Filter(xs, p))[x] == if p(x) then multiset(xs)[x] else 0
    decreases |xs|
  {
    if xs != [] {
      var n := |xs| - 1;
      FilterCounts(xs[..n], p, x);
      assert xs == xs[..n] + [xs[n]];
      assert multiset(xs) == multiset(xs[..n]) + multiset{xs[n]};
    }
  }

  /** Lists holding the same elements, in any order, have as many that satisfy `p`. */
  lemma CountIfPerm<T(!new)>(a: seq<T>, b: seq<T>, p: T -> bool)
    requires multiset(a) == multiset(b)
    ensures CountIf(a, p) == CountIf(b, p)
  {
    forall x ensures multiset(Filter(a, p))[x] == multiset(Filter(b, p))[x] {
      FilterCounts(a, p, x);
      FilterCounts(b, p, x);
    }
    assert multiset(Filter(a, p)) == multiset(Filter(b, p));
    assert |Filter(a, p)| == |multiset(Filter(a, p))|;
    assert |Filter(b, p)| == |multiset(Filter(b, p))|;
  }

  /** When nothing from position `m` on satisfies `p`, at most `m` elements do. */
  lemma {:induction false} CountIfBefore<T>(xs: seq<T>, p: T -> bool, m: nat)
    requires forall j :: m <= j < |xs| ==> !p(xs[j])
    ensures CountIf(xs, p) <= m
    decreases |xs|
  {
    if |xs| > m {
      var n := |xs| - 1;
      assert forall j :: m <= j < n ==> xs[..n][j] == xs[j];
      CountIfBefore(xs[..n], p, m);
    }
  }

  /** A weaker condition that also holds where the stronger one fails counts strictly more. */
  lemma {:induction false} CountIfStrict<T>(xs: seq<T>, p: T -> bool, r: T -> bool, k: nat)
    requires forall i :: 0 <= i < |xs| ==> p(xs[i]) ==> r(xs[i])
    requires k < |xs| && r(xs[k]) && !p(xs[k])
    ensures CountIf(xs, p) < CountIf(xs, r)
    decreases |xs|
  {
    var n := |xs| - 1;
    assert forall i :: 0 <= i < n ==> xs[..n][i] == xs[i];
    if k == n {
      CountIfImplies(xs[..n], p, r);
    } else {
      CountIfStrict(xs[..n], p, r, k);
    }
  }

  predicate NoRepeats<T(==)>(xs: seq<T>) { forall i, j :: 0 <= i < j < |xs| ==> xs[i] != xs[j] }

  /** The elements of `xs` without repeats, each at its first occurrence. */
  function Dedup<T(==,!new)>(xs: seq<T>): (r: seq<T>)
    ensures NoRepeats(r)
    ensures forall x :: x in r <==> x in xs
    decreases |xs|
  {
    if xs == [] then []
    else
      var init := Dedup(xs[..|xs| - 1]);
      assert xs == xs[..|xs| - 1] + [xs[|xs| - 1]];
      if xs[|xs| - 1] in init then init else init + [xs[|xs| - 1]]
  }

  /** `xs.index(x)`: the position of the first occurrence of `x`. */
  function IndexOf<T(==)>(xs: seq<T>, x: T): (r: nat)
    requires x in xs
    ensures r < |xs| && xs[r] == x && x !in xs[..r]
    decreases |xs|
  {
    if xs[0] == x then 0
    else
      assert xs == [xs[0]] + xs[1..];
      var k := IndexOf(xs[1..], x);
      assert xs[..k + 1] == [xs[0]] + xs[1..][..k];
      k + 1
  }

  /** The first occurrence is the only position holding `x` with no `x` before it. */
  lemma IndexOfUnique<T>(xs: seq<T>, x: T, k: nat)
    requires k < |xs| && xs[k] == x && x !in xs[..k]
    ensures IndexOf(xs, x) == k
  {
    var r := IndexOf(xs, x);
    if r < k {
      assert false;
    }
  }

  /** A non-empty sequence holds its first element. */
  lemma HeadIn<T>(xs: seq<T>)
    ensures xs != [] ==> xs[0] in xs
  {
  }

  lemma IndexOfPrefix<T>(xs: seq<T>, ys: seq<T>, x: T)
    requires x in xs
    ensures IndexOf(xs + ys, x) == IndexOf(xs, x)
  {
    var k := IndexOf(xs, x);
    assert (xs + ys)[..k] == xs[..k];
    IndexOfUnique(xs + ys, x, k);
  }

  /** `Dedup` lists the elements in the order of their first occurrence. */
  lemma {:induction false} DedupFirstSeen<T(!new)>(xs: seq<T>)
    ensures forall i, j :: 0 <= i < j < |Dedup(xs)| ==> IndexOf(xs, Dedup(xs)[i]) < IndexOf(xs, Dedup(xs)[j])
    decreases |xs|
  {
    if xs != [] {
      var init := xs[..|xs| - 1];
      var y := xs[|xs| - 1];
      assert xs == init + [y];
      DedupFirstSeen(init);
      var d0 := Dedup(init);
      forall z | z in init ensures IndexOf(xs, z) == IndexOf(init, z) { IndexOfPrefix(init, [y], z); }
      if y !in d0 {
        assert xs[..|init|] == init;
        IndexOfUnique(xs, y, |init|);
      }
    }
  }

  /** Two elements keep the order of their first occurrences after duplicates are dropped. */
  lemma DedupOrder<T(!new)>(xs: seq<T>, x: T, y: T)
    requires x in xs && y in xs && IndexOf(xs, x) < IndexOf(xs, y)
    ensures x in Dedup(xs) && y in Dedup(xs) && IndexOf(Dedup(xs), x) < IndexOf(Dedup(xs), y)
  {
    var d := Dedup(xs);
    var a := IndexOf(d, x);
    var b := IndexOf(d, y);
    DedupFirstSeen(xs);
    assert d[a] == x && d[b] == y;
  }

  /** `f` applied to every element, or `None` as soon as one application fails. */
  function AllSome<A, B>(xs: seq<A>, f: A -> Option<B>): (r: Option<seq<B>>)
    ensures r.Some? ==> |r.value| == |xs|
    decreases |xs|
  {
    if xs == [] then Some([])
    else match AllSome(xs[..|xs| - 1], f)
      case None => None
      case Some(init) =>
        match f(xs[|xs| - 1])
        case None => None
        case Some(y) => Some(init + [y])
  }

  /** Success gives every element's own result, in order; failure happens exactly when some element fails. */
  lemma {:induction false} AllSomeSpec<A, B>(xs: seq<A>, f: A -> Option<B>)
    ensures AllSome(xs, f).Some? ==> forall i :: 0 <= i < |xs| ==> f(xs[i]) == Some(AllSome(xs, f).value[i])
    ensures AllSome(xs, f).None? <==> exists i :: 0 <= i < |xs| && f(xs[i]).None?
    decreases |xs|
  {
    if xs != [] {
      var init := xs[..|xs| - 1];
      AllSomeSpec(init, f);
      assert forall i :: 0 <= i < |init| ==> init[i] == xs[i];
      if exists i :: 0 <= i < |xs| && f(xs[i]).None? {
        var i :| 0 <= i < |xs| && f(xs[i]).None?;
        if i < |init| {
          assert f(init[i]).None?;
        }
      }
    }
  }

  /** One more element on a prefix that has not failed yet. */
  lemma AllSomeStep<A, B>(xs: seq<A>, f: A -> Option<B>, i: nat, acc: seq<B>)
    requires i < |xs| && AllSome(xs[..i], f) == Some(acc)
    ensures f(xs[i]).Some? ==> AllSome(xs[..i + 1], f) == Some(acc + [f(xs[i]).value])
  {
    assert xs[..i + 1][..i] == xs[..i];
  }

  /** One failing element fails the whole sequence. */
  lemma AllSomeFails<A, B>(xs: seq<A>, f: A -> Option<B>, i: nat)
    requires i < |xs| && f(xs[i]).None?
    ensures AllSome(xs, f).None?
  {
    AllSomeSpec(xs, f);
  }

  /** The characters `str.splitlines` breaks at; `\r\n` counts as one break. */
  predicate IsLineBreak(c: char)
  {
    c == '\n' || c == '\r' || c == '\U{0B}' || c == '\U{0C}' || c == '\U{1C}' || c == '\U{1D}' || c == '\U{1E}'
    || c == '\U{85}' || c == '\U{2028}' || c == '\U{2029}'
  }

  /** Index of the first line break, or `|t|`. */
  function LineEnd(t: string): (i: nat)
    ensures i <= |t| && (i < |t| ==> IsLineBreak(t[i])) && forall k :: 0 <= k < i ==> !IsLineBreak(t[k])
    decreases |t|
  {
    if t == [] || IsLineBreak(t[0]) then 0 else 1 + LineEnd(t[1..])
  }

  /**
   * `text.splitlines()`: the text between line breaks, a `\r\n` pair being
   * one break; an empty text has no lines and a final break opens none.
   */
  function Lines(t: string): (r: seq<string>)
    ensures forall j, k :: 0 <= j < |r| && 0 <= k < |r[j]| ==> !IsLineBreak(r[j][k])
    decreases |t|
  {
    if t == [] then []
    else
      var i := LineEnd(t);
      if i == |t| then [t]
      else
        var next := if t[i] == '\r' && i + 1 < |t| && t[i + 1] == '\n' then i + 2 else i + 1;
        [t[..i]] + Lines(t[next..])
  }

  /** A line ended by `\r\n` comes out without the `\r`, as one ended by `\n` does. */
  lemma LinesCrLf(line: string, rest: string)
    requires forall k :: 0 <= k < |line| ==> !IsLineBreak(line[k])
    ensures Lines(line + "\r\n" + rest) == [line] + Lines(rest)
    ensures Lines(line + "\n" + rest) == [line] + Lines(rest)
  {
    LinesAfterBreak(line, "\r\n", rest);
    LinesAfterBreak(line, "\n", rest);
  }

  /** The first line ends at the first break; a `\r\n` pair or a lone `\n` is consumed whole. */
  lemma LinesAfterBreak(line: string, brk: string, rest: string)
    requires forall k :: 0 <= k < |line| ==> !IsLineBreak(line[k])
    requires brk == "\r\n" || brk == "\n"
    ensures Lines(line + brk + rest) == [line] + Lines(rest)
  {
    var t := line + brk + rest;
    var i := |line|;
    assert t == line + (brk + rest);
    LineEndAt(line, brk + rest);
    assert LineEnd(t) == i;
    var next := if t[i] == '\r' && i + 1 < |t| && t[i + 1] == '\n' then i + 2 else i + 1;
    assert next == i + |brk|;
    assert t[..i] == line;
    assert t[next..] == rest;
  }

  lemma {:induction false} LineEndAt(line: string, rest: string)
    requires forall k :: 0 <= k < |line| ==> !IsLineBreak(line[k])
    requires rest != [] && IsLineBreak(rest[0])
    ensures LineEnd(line + rest) == |line|
    decreases |line|
  {
    if line != [] {
      assert (line + rest)[1..] == line[1..] + rest;
      LineEndAt(line[1..], rest);
    }
  }
}
