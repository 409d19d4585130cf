/**
 * UTF-8 as Python's codec writes and reads it: `str.encode("utf-8")`, and
 * `bytes.decode("utf-8", "replace")`, which puts one U+FFFD in place of
 * each maximal ill-formed subpart (the practice section 3.9 of the Unicode
 * Standard recommends) and goes on with the byte after it.
 */
module Unicode {
  import opened Text

  newtype byte = x: int | 0 <= x < 256

  /** One hexadecimal digit, either case. */
  function HexDigit(c: char): Option<nat>
  {
    if IsDigit(c) then Some(c as int - '0' as int)
    else if 'a' <= c <= 'f' then Some(c as int - 'a' as int + 10)
    else if 'A' <= c <= 'F' then Some(c as int - 'A' as int + 10)
    else None
  }

  // ------------------------------------------------------------- encoding

  /** The UTF-8 encoding of one character. */
  function Utf8Char(c: char): (bs: seq<byte>)
    ensures 1 <= |bs| <= 4
    ensures |bs| == 1 <==> c as int < 0x80
    ensures |bs| == 1 ==> bs[0] as int == c as int
    ensures |bs| > 1 ==> bs[0] >= 0xC0 && forall k :: 1 <= k < |bs| ==> 0x80 <= bs[k] < 0xC0
  {
    var n := c as int;
    if n < 0x80 then [n as byte]
    else if n < 0x800 then [(0xC0 + n / 64) as byte, (0x80 + n % 64) as byte]
    else if n < 0x10000 then [(0xE0 + n / 4096) as byte, (0x80 + n / 64 % 64) as byte, (0x80 + n % 64) as byte]
    else [(0xF0 + n / 262144) as byte, (0x80 + n / 4096 % 64) as byte, (0x80 + n / 64 % 64) as byte,
          (0x80 + n % 64) as byte]
  }

  /** The code point a sequence of one to four bytes stands for, by the UTF-8 bit layout. */
  function Utf8Value(bs: seq<byte>): int
    requires 1 <= |bs| <= 4
  {
    if |bs| == 1 then bs[0] as int
    else if |bs| == 2 then (bs[0] as int - 0xC0) * 64 + (bs[1] as int - 0x80)
    else if |bs| == 3 then (bs[0] as int - 0xE0) * 4096 + (bs[1] as int - 0x80) * 64 + (bs[2] as int - 0x80)
    else (bs[0] as int - 0xF0) * 262144 + (bs[1] as int - 0x80) * 4096 + (bs[2] as int - 0x80) * 64 + (bs[3] as int - 0x80)
  }

  /** The bit layout of a character's encoding gives the character back. */
  lemma Utf8CharValue(c: char)
    ensures Utf8Value(Utf8Char(c)) == c as int
  {
    var n := c as int;
    assert n == n / 64 * 64 + n % 64;
    assert n / 64 == n / 4096 * 64 + n / 64 % 64;
    assert n / 4096 == n / 262144 * 64 + n / 4096 % 64;
  }

  /** `s.encode("utf-8")` */
  function Utf8(s: string): (bs: seq<byte>)
    ensures |s| <= |bs| <= 4 * |s|
    decreases |s|
  {
    if s == [] then [] else Utf8Char(s[0]) + Utf8(s[1..])
  }

  lemma {:induction false} Utf8Append(a: string, b: string)
    ensures Utf8(a + b) == Utf8(a) + Utf8(b)
    decreases |a|
  {
    if a != [] {
      assert (a + b)[0] == a[0] && (a + b)[1..] == a[1..] + b;
      Utf8Append(a[1..], b);
      assert Utf8(a + b) == Utf8Char(a[0]) + (Utf8(a[1..]) + Utf8(b));
    } else {
      assert a + b == b;
    }
  }

  // ------------------------------------------------------------- decoding

  /** What `bytes.decode` puts where the bytes are not UTF-8. */
  const Replacement: char := '\U{FFFD}'

  /**
   * The length of the sequence a byte starts: 1 below 0x80, 2 to 4 for a
   * lead byte, 0 for a byte no sequence starts with (a continuation byte,
   * C0, C1, or F5 and above).
   */
  function Width(b: byte): (n: nat)
    ensures n <= 4 && (n == 1 <==> b < 0x80)
  {
    if b < 0x80 then 1
    else if 0xC2 <= b <= 0xDF then 2
    else if 0xE0 <= b <= 0xEF then 3
    else if 0xF0 <= b <= 0xF4 then 4
    else 0
  }

  /**
   * Byte `k` (from 1) of a sequence led by `lead` may be `b`: a continuation
   * byte, narrowed after E0, ED, F0 and F4 so that no overlong form, no
   * surrogate and nothing above U+10FFFF gets through.
   */
  predicate Follows(lead: byte, k: nat, b: byte)
  {
    if k == 1 && lead == 0xE0 then 0xA0 <= b <= 0xBF
    else if k == 1 && lead == 0xED then 0x80 <= b <= 0x9F
    else if k == 1 && lead == 0xF0 then 0x90 <= b <= 0xBF
    else if k == 1 && lead == 0xF4 then 0x80 <= b <= 0x8F
    else 0x80 <= b <= 0xBF
  }

  /** The bytes after the lead, up to `n`, all follow it. */
  predicate Fits(bs: seq<byte>, n: nat)
    requires bs != []
  {
    n <= |bs| && forall j :: 1 <= j < n ==> Follows(bs[0], j, bs[j])
  }

  /** How many bytes from the start, at most `n`, a sequence led by `bs[0]` accepts before one does not fit. */
  function Fitting(bs: seq<byte>, n: nat, k: nat): (m: nat)
    requires bs != [] && 1 <= k <= n && Fits(bs, k)
    ensures k <= m <= n && Fits(bs, m)
    ensures m < n ==> m == |bs| || !Follows(bs[0], m, bs[m])
    decreases n - k
  {
    if k < n && k < |bs| && Follows(bs[0], k, bs[k]) then Fitting(bs, n, k + 1) else k
  }

  /** A complete sequence: a lead byte of width two to four and the bytes that follow it. */
  predicate WellFormed(bs: seq<byte>)
  {
    2 <= |bs| <= 4 && Width(bs[0]) == |bs| && Fits(bs, |bs|)
  }

  /** A well-formed sequence stands for a Unicode scalar value. */
  lemma WellFormedScalar(bs: seq<byte>)
    requires WellFormed(bs)
    ensures 0x80 <= Utf8Value(bs) < 0xD800 || 0xE000 <= Utf8Value(bs) < 0x110000
  {
    assert Follows(bs[0], 1, bs[1]);
    if |bs| >= 3 {
      assert Follows(bs[0], 2, bs[2]);
    }
    if |bs| == 4 {
      assert Follows(bs[0], 3, bs[3]);
    }
  }

  function CharOf(bs: seq<byte>): char
    requires WellFormed(bs)
  {
    WellFormedScalar(bs);
    Utf8Value(bs) as char
  }

  /** `bs.decode("utf-8", "replace")` */
  function DecodeUtf8(bs: seq<byte>): (s: string)
    ensures |s| <= |bs|
    decreases |bs|
  {
    if bs == [] then []
    else
      var n := Width(bs[0]);
      if n == 1 then [bs[0] as int as char] + DecodeUtf8(bs[1..])
      else if n == 0 then [Replacement] + DecodeUtf8(bs[1..])
      else
        var m := Fitting(bs, n, 1);
        if m < n then [Replacement] + DecodeUtf8(bs[m..])
        else [CharOf(bs[..n])] + DecodeUtf8(bs[n..])
  }

  /** The encoding of a character is a complete sequence of the width its lead announces. */
  lemma Utf8CharWellFormed(c: char)
    requires c as int >= 0x80
    ensures WellFormed(Utf8Char(c))
  {
    var n := c as int;
    var bs := Utf8Char(c);
    if n < 0x800 {
      assert 2 <= n / 64 < 32;
    } else if n < 0x10000 {
      assert n / 4096 < 16;
      if n / 4096 == 0 {
        assert n / 64 % 64 == n / 64 >= 32;
      }
      if n / 4096 == 13 {
        assert n < 0xD800;
        assert n / 64 % 64 == n / 64 - 13 * 64 < 32;
      }
      assert Follows(bs[0], 1, bs[1]) && Follows(bs[0], 2, bs[2]);
    } else {
      assert n < 0x110000;
      assert n / 262144 <= 4;
      if n / 262144 == 0 {
        assert n / 4096 % 64 == n / 4096 >= 16;
      }
      if n / 262144 == 4 {
        assert n / 4096 % 64 == n / 4096 - 4 * 64 <= 15;
      }
      assert Follows(bs[0], 1, bs[1]) && Follows(bs[0], 2, bs[2]) && Follows(bs[0], 3, bs[3]);
    }
  }

  /** Decoding reads a character's encoding back as that character and goes on after it. */
  lemma DecodeUtf8Char(c: char, rest: seq<byte>)
    ensures DecodeUtf8(Utf8Char(c) + rest) == [c] + DecodeUtf8(rest)
  {
    var e := Utf8Char(c);
    var bs := e + rest;
    assert bs[..|e|] == e && bs[|e|..] == rest;
    if c as int >= 0x80 {
      Utf8CharWellFormed(c);
      assert Fits(bs, |e|);
      var m := Fitting(bs, |e|, 1);
      assert m == |e|;
      Utf8CharValue(c);
    } else {
      assert bs[1..] == rest;
    }
  }

  /** Decoding undoes encoding: `s.encode("utf-8").decode("utf-8", "replace") == s`. */
  lemma {:induction false} DecodeEncoded(s: string)
    ensures DecodeUtf8(Utf8(s)) == s
    decreases |s|
  {
    if s != [] {
      DecodeUtf8Char(s[0], Utf8(s[1..]));
      DecodeEncoded(s[1..]);
    }
  }

  /** Bytes that are no UTF-8 at all become one U+FFFD each. */
  lemma StrayBytes()
    ensures DecodeUtf8([0xFF]) == [Replacement]
    ensures DecodeUtf8([0x80, 0x41]) == [Replacement, 'A']
    ensures DecodeUtf8([0xE2, 0x82]) == [Replacement]
  {
    assert Fitting([0xE2, 0x82], 3, 1) == 2;
    assert [0x80, 0x41][1..] == [0x41];
  }
}
