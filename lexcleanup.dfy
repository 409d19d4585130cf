/**
 * Spec rewriting done by the one-time lexicon cleanup: bringing the
 * `strong_phrases` and legacy `phrases` lists of a tag in sync, and
 * copying phrases from one tag into another when two tags are merged.
 */
module LexCleanup {
  import opened Text
  import opened LexSpec

  const PhrasesKey := "phrases"

  /** The characters of a string, each as a one-character string element. */
  function Chars(t: string): (r: seq<Item>)
    ensures |r| == |t| && forall i :: 0 <= i < |r| ==> r[i] == IStr([t[i]])
  {
    seq(|t|, i requires 0 <= i < |t| => IStr([t[i]]))
  }

  /** The phrase field holds a non-empty string. */
  predicate StrField(spec: Spec, key: string) { HasTruthy(spec, key) && spec[key].JStr? }

  /**
   * What Python walks in `for p in spec.get(key) or []` (or copies with
   * `list(...)`): the elements of a list, nothing when the field is missing
   * or falsy, the characters of a non-empty string, and `None` for any other
   * truthy value (a number or boolean raises; an object is not modelled).
   */
  function PhraseList(spec: Spec, key: string): Option<seq<Item>>
  {
    if key !in spec || !Truthy(spec[key]) then Some([])
    else if spec[key].JList? then Some(spec[key].items)
    else if spec[key].JStr? then Some(Chars(spec[key].s))
    else None
  }

  /** `p.strip().lower()` */
  function Key(p: string): string { Lower(Trim(p)) }

  /*
   * The dedupe is written over the strip and key functions it uses, so that
   * its proofs need only the two laws `StripLaws` states about them.
   */

  /** A string element with some text left after stripping. */
  predicate Usable(x: Item, strip: string -> string) { x.IStr? && strip(x.s) != [] }

  function KeysOf(ps: seq<string>, key: string -> string): set<string> { set p | p in ps :: key(p) }

  /** Phrases, each stripped and non-empty, no two with the same key. */
  predicate CleanPhrases(ps: seq<string>, strip: string -> string, key: string -> string)
  {
    (forall i :: 0 <= i < |ps| ==> strip(ps[i]) == ps[i] && ps[i] != [])
    && forall i, j :: 0 <= i < j < |ps| ==> key(ps[i]) != key(ps[j])
  }

  /** Stripping twice is stripping once, and the key ignores the stripping. */
  ghost predicate Laws(strip: string -> string, key: string -> string)
  {
    (forall p :: strip(strip(p)) == strip(p)) && forall p :: key(strip(p)) == key(p)
  }

  lemma StripLaws()
    ensures Laws(Trim, Key)
  {
    forall p ensures Trim(Trim(p)) == Trim(p) { TrimIdempotent(p); }
  }

  // -------------------------------------------------- _normalise_spec

  /** The stripped usable phrases of `xs` whose key is new, each at its first occurrence. */
  function DedupBy(xs: seq<Item>, seen: set<string>, strip: string -> string, key: string -> string): seq<string>
    decreases |xs|
  {
    if xs == [] then []
    else if Usable(xs[0], strip) && key(xs[0].s) !in seen then
      [strip(xs[0].s)] + DedupBy(xs[1..], seen + {key(xs[0].s)}, strip, key)
    else DedupBy(xs[1..], seen, strip, key)
  }

  /** The loop of `_normalise_spec`, keeping a set of the keys seen so far. */
  method MergePhrases(xs: seq<Item>) returns (merged: seq<string>)
    ensures merged == DedupBy(xs, {}, Trim, Key)
  {
    var seen: set<string> := {};
    merged := [];
    var i := 0;
    while i < |xs|
      invariant 0 <= i <= |xs|
      invariant merged + DedupBy(xs[i..], seen, Trim, Key) == DedupBy(xs, {}, Trim, Key)
    {
      assert xs[i..][1..] == xs[i + 1..];
      var p := xs[i];
      if p.IStr? && Trim(p.s) != [] {
        var norm := Lower(Trim(p.s));
        if norm !in seen {
          seen := seen + {norm};
          merged := merged + [Trim(p.s)];
        }
      }
      i := i + 1;
    }
  }

  /**
   * The merged list is clean, its keys are new, every usable phrase's key
   * is either already seen or carried by an element of the list, and every
   * element is a stripped usable phrase.
   */
  lemma {:induction false} DedupBySpec(xs: seq<Item>, seen: set<string>, strip: string -> string, key: string -> string)
    requires Laws(strip, key)
    ensures CleanPhrases(DedupBy(xs, seen, strip, key), strip, key)
    ensures KeysOf(DedupBy(xs, seen, strip, key), key) !! seen
    ensures forall i :: 0 <= i < |xs| && Usable(xs[i], strip) ==> key(xs[i].s) in seen + KeysOf(DedupBy(xs, seen, strip, key), key)
    ensures forall p :: p in DedupBy(xs, seen, strip, key) ==> exists i :: 0 <= i < |xs| && Usable(xs[i], strip) && strip(xs[i].s) == p
    decreases |xs|
  {
    if xs != [] {
      var r := DedupBy(xs, seen, strip, key);
      if Usable(xs[0], strip) && key(xs[0].s) !in seen {
        var p := strip(xs[0].s);
        var seen1 := seen + {key(xs[0].s)};
        var rest := DedupBy(xs[1..], seen1, strip, key);
        DedupBySpec(xs[1..], seen1, strip, key);
        assert key(p) == key(xs[0].s);
        assert r == [p] + rest;
        ConsClean(p, rest, strip, key);
        forall i | 0 <= i < |xs| && Usable(xs[i], strip) ensures key(xs[i].s) in seen + KeysOf(r, key) {
          if i > 0 { assert xs[i] == xs[1..][i - 1]; }
        }
        forall q | q in r ensures exists i :: 0 <= i < |xs| && Usable(xs[i], strip) && strip(xs[i].s) == q {
          if q != p {
            var i :| 0 <= i < |xs[1..]| && Usable(xs[1..][i], strip) && strip(xs[1..][i].s) == q;
            assert xs[i + 1] == xs[1..][i];
          }
        }
      } else {
        DedupBySpec(xs[1..], seen, strip, key);
        forall i | 0 <= i < |xs| && Usable(xs[i], strip) ensures key(xs[i].s) in seen + KeysOf(r, key) {
          if i > 0 { assert xs[i] == xs[1..][i - 1]; }
        }
        forall q | q in r ensures exists i :: 0 <= i < |xs| && Usable(xs[i], strip) && strip(xs[i].s) == q {
          var i :| 0 <= i < |xs[1..]| && Usable(xs[1..][i], strip) && strip(xs[1..][i].s) == q;
          assert xs[i + 1] == xs[1..][i];
        }
      }
    }
  }

  lemma ConsClean(p: string, rest: seq<string>, strip: string -> string, key: string -> string)
    requires CleanPhrases(rest, strip, key) && strip(p) == p && p != [] && key(p) !in KeysOf(rest, key)
    ensures CleanPhrases([p] + rest, strip, key) && KeysOf([p] + rest, key) == {key(p)} + KeysOf(rest, key)
  {
    var r := [p] + rest;
    forall i, j | 0 <= i < j < |r| ensures key(r[i]) != key(r[j]) {
      assert r[j] == rest[j - 1];
      if i == 0 { assert rest[j - 1] in rest; }
      else { assert r[i] == rest[i - 1]; }
    }
  }

  /** Clean phrases pass through the dedupe unchanged, and their keys are then seen. */
  lemma {:induction false} DedupClean(ps: seq<string>, rest: seq<Item>, seen: set<string>, strip: string -> string, key: string -> string)
    requires CleanPhrases(ps, strip, key) && KeysOf(ps, key) !! seen
    ensures DedupBy(Strs(ps) + rest, seen, strip, key) == ps + DedupBy(rest, seen + KeysOf(ps, key), strip, key)
    decreases |ps|
  {
    if ps != [] {
      var tail := ps[1..];
      CleanTail(ps, seen, strip, key);
      DedupClean(tail, rest, seen + {key(ps[0])}, strip, key);
      StrsCons(ps, rest);
      DedupKeep(ps[0], Strs(tail) + rest, seen, strip, key);
      var d := DedupBy(rest, seen + KeysOf(ps, key), strip, key);
      ConsAppend(ps, d);
    } else {
      assert Strs(ps) + rest == rest;
      assert seen + KeysOf(ps, key) == seen;
    }
  }

  lemma ConsAppend<T>(a: seq<T>, d: seq<T>)
    requires a != []
    ensures a + d == [a[0]] + (a[1..] + d)
  {
    assert a == [a[0]] + a[1..];
  }

  lemma DedupKeep(p: string, xs: seq<Item>, seen: set<string>, strip: string -> string, key: string -> string)
    requires strip(p) == p && p != [] && key(p) !in seen
    ensures DedupBy([IStr(p)] + xs, seen, strip, key) == [p] + DedupBy(xs, seen + {key(p)}, strip, key)
  {
    assert ([IStr(p)] + xs)[1..] == xs;
  }

  lemma StrsCons(ps: seq<string>, rest: seq<Item>)
    requires ps != []
    ensures Strs(ps) + rest == [IStr(ps[0])] + (Strs(ps[1..]) + rest)
  {
    assert Strs(ps) == [IStr(ps[0])] + Strs(ps[1..]);
  }

  lemma CleanTail(ps: seq<string>, seen: set<string>, strip: string -> string, key: string -> string)
    requires ps != [] && CleanPhrases(ps, strip, key) && KeysOf(ps, key) !! seen
    ensures CleanPhrases(ps[1..], strip, key) && KeysOf(ps[1..], key) !! seen + {key(ps[0])}
    ensures strip(ps[0]) == ps[0] && ps[0] != [] && key(ps[0]) !in seen
    ensures seen + {key(ps[0])} + KeysOf(ps[1..], key) == seen + KeysOf(ps, key)
  {
    var tail := ps[1..];
    assert ps[0] in ps;
    forall i, j | 0 <= i < j < |tail| ensures key(tail[i]) != key(tail[j]) {
      assert tail[i] == ps[i + 1] && tail[j] == ps[j + 1];
    }
    forall q | q in tail ensures key(q) != key(ps[0]) && key(q) !in seen {
      var j :| 0 <= j < |tail| && tail[j] == q;
      assert ps[j + 1] == q;
    }
    assert ps == [ps[0]] + tail;
  }

  /** Phrases whose keys are all seen contribute nothing. */
  lemma {:induction false} DedupAllSeen(xs: seq<Item>, seen: set<string>, strip: string -> string, key: string -> string)
    requires forall i :: 0 <= i < |xs| && Usable(xs[i], strip) ==> key(xs[i].s) in seen
    ensures DedupBy(xs, seen, strip, key) == []
    decreases |xs|
  {
    if xs != [] {
      assert forall i :: 0 <= i < |xs[1..]| ==> xs[1..][i] == xs[i + 1];
      DedupAllSeen(xs[1..], seen, strip, key);
    }
  }

  /** Deduplicating clean phrases listed twice gives them back once. */
  lemma DedupTwice(m: seq<string>, strip: string -> string, key: string -> string)
    requires CleanPhrases(m, strip, key)
    ensures DedupBy(Strs(m) + Strs(m), {}, strip, key) == m
  {
    DedupClean(m, Strs(m), {}, strip, key);
    assert {} + KeysOf(m, key) == KeysOf(m, key);
    forall i | 0 <= i < |Strs(m)| && Usable(Strs(m)[i], strip) ensures key(Strs(m)[i].s) in KeysOf(m, key) {
      assert Strs(m)[i].s == m[i];
    }
    DedupAllSeen(Strs(m), KeysOf(m, key), strip, key);
  }

  /**
   * `strong + legacy` as `_normalise_spec` computes it: the strong then the
   * legacy phrases when both fields are lists (or falsy) and, when both are
   * non-empty strings, the characters of their concatenation; adding a list
   * to a string raises.
   */
  function Union(spec: Spec): Option<seq<Item>>
  {
    var s := PhraseList(spec, StrongKey);
    var l := PhraseList(spec, PhrasesKey);
    if s.None? || l.None? || StrField(spec, StrongKey) != StrField(spec, PhrasesKey) then None
    else Some(s.value + l.value)
  }

  /** Both phrase fields set to the deduplicated union, unless it is empty. */
  function NormaliseBy(spec: Spec, strip: string -> string, key: string -> string): Option<Spec>
  {
    var u := Union(spec);
    if u.None? then None
    else
      var m := DedupBy(u.value, {}, strip, key);
      if m == [] then Some(spec)
      else Some(spec[PhrasesKey := JList(Strs(m))][StrongKey := JList(Strs(m))])
  }

  /**
   * `_normalise_spec`: the strong phrases followed by the legacy ones,
   * stripped and deduplicated case-insensitively, written to both fields;
   * an empty union leaves the spec as it was. `None` when a phrase field
   * holds a truthy value that is not a list.
   */
  function NormaliseSpec(spec: Spec): Option<Spec> { NormaliseBy(spec, Trim, Key) }

  /**
   * After normalising, both phrase fields hold the same clean list covering
   * every usable phrase of either old field (and nothing else); all other
   * keys are untouched.
   */
  lemma NormaliseSpecSpec(spec: Spec)
    requires NormaliseSpec(spec).Some?
    ensures var r := NormaliseSpec(spec).value;
      var xs := Union(spec).value;
      var m := DedupBy(xs, {}, Trim, Key);
      (forall k :: k in spec && k != StrongKey && k != PhrasesKey ==> k in r && r[k] == spec[k])
      && CleanPhrases(m, Trim, Key)
      && (forall i :: 0 <= i < |xs| && Usable(xs[i], Trim) ==> Key(xs[i].s) in KeysOf(m, Key))
      && (forall p :: p in m ==> exists i :: 0 <= i < |xs| && Usable(xs[i], Trim) && Trim(xs[i].s) == p)
      && (m == [] ==> r == spec)
      && (m != [] ==> StrongKey in r && PhrasesKey in r && r[StrongKey] == r[PhrasesKey] == JList(Strs(m)))
  {
    StripLaws();
    DedupBySpec(Union(spec).value, {}, Trim, Key);
  }

  lemma NormaliseByIdempotent(spec: Spec, strip: string -> string, key: string -> string)
    requires Laws(strip, key) && NormaliseBy(spec, strip, key).Some?
    ensures NormaliseBy(NormaliseBy(spec, strip, key).value, strip, key) == NormaliseBy(spec, strip, key)
  {
    var m := DedupBy(Union(spec).value, {}, strip, key);
    if m != [] {
      DedupBySpec(Union(spec).value, {}, strip, key);
      var r := NormaliseBy(spec, strip, key).value;
      assert Strs(m) != [];
      assert Union(r) == Some(Strs(m) + Strs(m));
      DedupTwice(m, strip, key);
      assert r[PhrasesKey := JList(Strs(m))][StrongKey := JList(Strs(m))] == r;
    }
  }

  /** Normalising a normalised spec changes nothing: the two fields stay in sync. */
  lemma NormaliseSpecIdempotent(spec: Spec)
    requires NormaliseSpec(spec).Some?
    ensures NormaliseSpec(NormaliseSpec(spec).value) == NormaliseSpec(spec)
  {
    StripLaws();
    NormaliseByIdempotent(spec, Trim, Key);
  }

  // ------------------------------------------------------ _merge_into

  function ItemKeys(xs: seq<Item>): set<string> { set x | x in xs :: Key(Str(x)) }

  /** The source elements whose key is not among `keys`, in order (repeats included). */
  function Unseen(src: seq<Item>, keys: set<string>): (r: seq<Item>)
    decreases |src|
  {
    if src == [] then []
    else (if Key(Str(src[0])) in keys then [] else [src[0]]) + Unseen(src[1..], keys)
  }

  lemma {:induction false} UnseenSpec(src: seq<Item>, keys: set<string>, x: Item)
    ensures x in Unseen(src, keys) <==> x in src && Key(Str(x)) !in keys
    decreases |src|
  {
    if src != [] {
      UnseenSpec(src[1..], keys, x);
      assert src == [src[0]] + src[1..];
    }
  }

  /**
   * One key of `_merge_into`: the target list plus the source elements new
   * to it. A target that is a string cannot be appended to, which raises as
   * soon as some source element is new.
   */
  function MergeField(tgt: Spec, src: Spec, key: string): Option<Spec>
  {
    var s := PhraseList(src, key);
    var t := PhraseList(tgt, key);
    if s.None? || t.None? then None
    else
      var u := Unseen(s.value, ItemKeys(t.value));
      if StrField(tgt, key) then (if u == [] then Some(tgt) else None)
      else
        var l := t.value + u;
        Some(if l != [] then tgt[key := JList(l)] else tgt)
  }

  /** The phrase copying of `_merge_into`: strong phrases first, then legacy phrases. */
  function MergeSpecs(tgt: Spec, src: Spec): Option<Spec>
  {
    var a := MergeField(tgt, src, StrongKey);
    if a.None? then None else MergeField(a.value, src, PhrasesKey)
  }

  /**
   * The merged field keeps the target's list as a prefix, then holds each
   * source element whose key the target lacked (and no other); every other
   * key of the target is kept.
   */
  lemma MergeFieldSpec(tgt: Spec, src: Spec, key: string, x: Item)
    requires MergeField(tgt, src, key).Some?
    ensures var r := MergeField(tgt, src, key).value;
      var t := PhraseList(tgt, key).value;
      (forall k :: k in tgt && k != key ==> k in r && r[k] == tgt[k])
      && PhraseList(r, key).Some?
      && t <= PhraseList(r, key).value
      && (x in PhraseList(r, key).value[|t|..] <==> x in PhraseList(src, key).value && Key(Str(x)) !in ItemKeys(t))
  {
    var t := PhraseList(tgt, key).value;
    var u := Unseen(PhraseList(src, key).value, ItemKeys(t));
    UnseenSpec(PhraseList(src, key).value, ItemKeys(t), x);
    if t + u == [] {
      assert PhraseList(tgt, key).value == [];
    } else {
      assert (t + u)[|t|..] == u;
    }
  }

  /** Merging keeps every target key other than the two phrase fields. */
  lemma MergeSpecsFrame(tgt: Spec, src: Spec)
    requires MergeSpecs(tgt, src).Some?
    ensures forall k :: k in tgt && k != StrongKey && k != PhrasesKey ==>
      k in MergeSpecs(tgt, src).value && MergeSpecs(tgt, src).value[k] == tgt[k]
  {
    var x := IStr("");
    MergeFieldSpec(tgt, src, StrongKey, x);
    MergeFieldSpec(MergeField(tgt, src, StrongKey).value, src, PhrasesKey, x);
  }

  /** The target's key set is not updated while copying, so a repeated source phrase is copied twice. */
  lemma MergeCopiesRepeats()
    ensures Unseen([IStr("Prior auth"), IStr("Prior auth")], {}) == [IStr("Prior auth"), IStr("Prior auth")]
  {
  }
}
