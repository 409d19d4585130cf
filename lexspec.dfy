/**
 * The tag rules of the policy lexicon shared by the lexicon-maintenance
 * service and its scripts: the two-level tag-code grammar and the
 * structure checks, kind picking and `kind:code` parsing, the phrase keys,
 * and alias insertion into a tag's JSON spec.
 *
 * A spec is a JSON object. List elements are only ever looked at through
 * `str()`, `isinstance(p, str)` and equality, so an element is a string or
 * any other value known by its `str()` text; numbers, booleans and null are
 * atoms carrying their `str()` text and their truthiness.
 */
module LexSpec {
  import opened Text

  datatype Item = IStr(s: string) | IOther(text: string)

  datatype Json =
    | JStr(s: string)
    | JList(items: seq<Item>)
    | JObj(fields: map<string, Json>)
    | JAtom(text: string, truthy: bool)

  type Spec = map<string, Json>

  /** `str(x)` of a list element. */
  function Str(x: Item): string
  {
    match x
    case IStr(s) => s
    case IOther(t) => t
  }

  /** Python truthiness of a JSON value. */
  predicate Truthy(v: Json)
  {
    match v
    case JStr(s) => s != []
    case JList(xs) => xs != []
    case JObj(m) => m != map[]
    case JAtom(_, t) => t
  }

  /** `spec.get(key)` is truthy. */
  predicate HasTruthy(spec: Spec, key: string) { key in spec && Truthy(spec[key]) }

  /** `[x for x in ss]` as a JSON list of strings. */
  function Strs(ss: seq<string>): (r: seq<Item>)
    ensures |r| == |ss| && forall i :: 0 <= i < |ss| ==> r[i] == IStr(ss[i])
  {
    seq(|ss|, i requires 0 <= i < |ss| => IStr(ss[i]))
  }

  /** `p in [str(x) for x in xs]` */
  predicate HasText(xs: seq<Item>, p: string)
  {
    exists i :: 0 <= i < |xs| && Str(xs[i]) == p
  }

  // ------------------------------------------------------- tag codes

  const Kinds: set<string> := {"p", "d", "j"}

  predicate SegmentStart(c: char) { IsLowerAlpha(c) }
  predicate SegmentChar(c: char) { IsLowerAlpha(c) || IsDigit(c) || c == '_' }

  /** `[a-z][a-z0-9_]*` */
  predicate Segment(s: string)
  {
    |s| >= 1 && SegmentStart(s[0]) && forall i :: 1 <= i < |s| ==> SegmentChar(s[i])
  }

  /** One segment, or two joined by the first (and only) dot. */
  predicate CodeShape(s: string)
  {
    if '.' in s then
      var k := IndexOf(s, '.');
      Segment(s[..k]) && Segment(s[k + 1..])
    else Segment(s)
  }

  /**
   * `_TAG_CODE_RE.match(code)` for `^[a-z][a-z0-9_]*(\.[a-z][a-z0-9_]*)?$`;
   * Python's `$` also matches just before a final newline.
   */
  predicate TagCodeOk(code: string)
  {
    CodeShape(code) || (|code| > 0 && code[|code| - 1] == '\n' && CodeShape(code[..|code| - 1]))
  }

  /** A well-formed code is lowercase snake case with at most one dot. */
  lemma CodeShapeSpec(s: string)
    requires CodeShape(s)
    ensures s != [] && IsLowerAlpha(s[0])
    ensures forall i :: 0 <= i < |s| ==> SegmentChar(s[i]) || s[i] == '.'
    ensures forall i, j :: 0 <= i < j < |s| && s[i] == '.' ==> s[j] != '.'
  {
    if '.' in s {
      var k := IndexOf(s, '.');
      assert s == s[..k] + ['.'] + s[k + 1..];
      forall i | 0 <= i < |s| ensures SegmentChar(s[i]) || s[i] == '.' {
        if i < k { assert s[i] == s[..k][i]; }
        else if i > k { assert s[i] == s[k + 1..][i - k - 1]; }
      }
      forall j | k < j < |s| ensures s[j] != '.' {
        assert s[j] == s[k + 1..][j - k - 1];
      }
    }
  }

  /** Two segments joined by a dot form a code, and the code splits back into them. */
  lemma {:induction false} CodeJoin(a: string, b: string)
    requires Segment(a) && Segment(b)
    ensures CodeShape(a + "." + b) && ParentOf(a + "." + b) == a
  {
    var s := a + "." + b;
    assert s[|a|] == '.';
    assert '.' !in a by { if '.' in a { var i :| 0 <= i < |a| && a[i] == '.'; } }
    assert s[..|a|] == a;
    IndexOfUnique(s, '.', |a|);
    assert s[|a| + 1..] == b;
    LastDotAfter(s, |a|);
  }

  /** A trailing newline slips past the `$` anchor. */
  lemma TrailingNewlineAccepted()
    ensures TagCodeOk("claims\n") && !CodeShape("claims\n")
  {
    assert "claims\n"[..6] == "claims";
    assert '.' !in "claims\n";
    assert !Segment("claims\n") by { assert !SegmentChar("claims\n"[6]); }
  }

  // -------------------------------------------------- parent codes

  /** `code.rsplit(".", 1)[0]`: the text before the last dot, or the whole code. */
  function ParentOf(code: string): (r: string)
    ensures |r| <= |code| && r == code[..|r|]
    ensures |r| < |code| ==> code[|r|] == '.' && '.' !in code[|r| + 1..]
    ensures |r| == |code| ==> '.' !in code
    decreases |code|
  {
    if code == [] then []
    else if code[|code| - 1] == '.' then code[..|code| - 1]
    else
      var h := ParentOf(code[..|code| - 1]);
      if |h| == |code| - 1 then code else h
  }

  lemma {:induction false} LastDotAfter(s: string, k: nat)
    requires k < |s| && s[k] == '.' && '.' !in s[k + 1..]
    ensures ParentOf(s) == s[..k]
    decreases |s|
  {
    if k < |s| - 1 {
      assert s[|s| - 1] == s[k + 1..][|s| - k - 2];
      var t := s[..|s| - 1];
      assert t[k + 1..] == s[k + 1..][..|s| - k - 2];
      LastDotAfter(t, k);
    }
  }

  // ------------------------------------------------ structure rules

  /** What `_parent_exists_repo` reported; a failed lookup is not an answer. */
  datatype Lookup = Found | NotFound | LookupFailed

  datatype TagCheck =
    | TagOk
    | BadCode
    | DomainWithParent(parent: string)
    | DomainWithField(field: string)
    | ChildWithoutParent(expected: string)
    | ParentMissing

  const MetadataFields: seq<string> := ["strong_phrases", "aliases", "refuted_words"]

  /** The field holds a non-empty list. */
  predicate NonEmptyList(spec: Spec, field: string)
  {
    field in spec && spec[field].JList? && spec[field].items != []
  }

  /** The first matching-metadata field a domain container may not carry. */
  function FirstMetadata(spec: Spec): Option<string>
  {
    if NonEmptyList(spec, MetadataFields[0]) then Some(MetadataFields[0])
    else if NonEmptyList(spec, MetadataFields[1]) then Some(MetadataFields[1])
    else if NonEmptyList(spec, MetadataFields[2]) then Some(MetadataFields[2])
    else None
  }

  function OrEmpty(s: Option<string>): string { if s.Some? then s.value else "" }

  /**
   * `_validate_tag_structure`: the code grammar; a domain container (no
   * dot) takes no parent and no matching metadata; a child tag needs a
   * parent that exists in the same kind. `lookup` is the parent query's
   * answer, asked only for a child tag with a parent.
   */
  function ValidateTag(code: string, parent: Option<string>, spec: Spec, lookup: Lookup): TagCheck
  {
    if !TagCodeOk(code) then BadCode
    else if '.' !in code && OrEmpty(parent) != [] then DomainWithParent(parent.value)
    else if '.' !in code && spec != map[] && FirstMetadata(spec).Some? then DomainWithField(FirstMetadata(spec).value)
    else if '.' in code && OrEmpty(parent) == [] then ChildWithoutParent(ParentOf(code))
    else if '.' in code && lookup == NotFound then ParentMissing
    else TagOk
  }

  /** The code grammar as the messages quote it. */
  const TagCodePattern := "^[a-z][a-z0-9_]*(\\.[a-z][a-z0-9_]*)?$"

  /** The `detail` of the 400 a broken structure rule raises; "" when none is broken. */
  function TagCheckText(kind: string, code: string, parent: Option<string>, c: TagCheck): string
  {
    match c
    case TagOk => ""
    case BadCode =>
      "Invalid tag code '" + code + "'. Must be lowercase_snake with max 2 dot-segments "
      + "(e.g. 'claims' or 'claims.submission'). Regex: " + TagCodePattern
    case DomainWithParent(p) => "Domain container '" + code + "' must not have a parent_code (got '" + p + "')"
    case DomainWithField(f) => "Domain container '" + code + "' must not have " + f + " -- add a .general leaf tag instead"
    case ChildWithoutParent(e) => "Child tag '" + code + "' requires parent_code (expected '" + e + "')"
    case ParentMissing => "Parent tag '" + kind + "." + OrEmpty(parent) + "' does not exist. Create the root tag first."
  }

  /**
   * A tag passes exactly when its code is well formed, a domain container
   * has neither parent nor metadata lists, and a child tag names a parent
   * the lookup did not deny (a failed lookup does not block).
   */
  lemma ValidateTagSpec(code: string, parent: Option<string>, spec: Spec, lookup: Lookup)
    ensures ValidateTag(code, parent, spec, lookup) == TagOk <==>
      TagCodeOk(code)
      && ('.' !in code ==> OrEmpty(parent) == [] && forall f :: f in MetadataFields ==> !NonEmptyList(spec, f))
      && ('.' in code ==> OrEmpty(parent) != [] && lookup != NotFound)
    ensures ValidateTag(code, parent, spec, lookup).ChildWithoutParent? ==>
      ValidateTag(code, parent, spec, lookup).expected == ParentOf(code) && '.' in code
  {
    if !NonEmptyList(spec, MetadataFields[0]) && !NonEmptyList(spec, MetadataFields[1])
      && !NonEmptyList(spec, MetadataFields[2])
    {
      forall f | f in MetadataFields ensures !NonEmptyList(spec, f) {
        assert f == MetadataFields[0] || f == MetadataFields[1] || f == MetadataFields[2];
      }
    }
  }

  /** A child tag's default parent is its own domain container. */
  lemma ChildParentIsDomain(a: string, b: string, spec: Spec)
    requires Segment(a) && Segment(b)
    ensures ValidateTag(a + "." + b, None, spec, Found) == ChildWithoutParent(a)
  {
    CodeJoin(a, b);
    var s := a + "." + b;
    assert s[|a|] == '.';
  }

  // ---------------------------------------------------- kind picking

  /** `str(k or "").strip().lower()` */
  function KindText(k: Option<string>): string { Lower(Trim(OrEmpty(k))) }

  /** The candidate types that name a kind, in order (blank ones are never kinds). */
  function KnownKinds(types: seq<Option<string>>): (r: seq<string>)
    ensures forall x :: x in r ==> x in Kinds
  {
    if types == [] then []
    else if KindText(types[0]) in Kinds then [KindText(types[0])] + KnownKinds(types[1..])
    else KnownKinds(types[1..])
  }

  /** A kind is known exactly when some candidate type names it. */
  lemma {:induction false} KnownKindsSpec(types: seq<Option<string>>, x: string)
    ensures x in KnownKinds(types) <==> x in Kinds && exists i :: 0 <= i < |types| && KindText(types[i]) == x
    decreases |types|
  {
    if types != [] {
      KnownKindsSpec(types[1..], x);
      if x in KnownKinds(types[1..]) {
        var i :| 0 <= i < |types[1..]| && KindText(types[1..][i]) == x;
        assert KindText(types[i + 1]) == x;
      }
      if x in Kinds && (exists i :: 0 <= i < |types| && KindText(types[i]) == x) {
        var i :| 0 <= i < |types| && KindText(types[i]) == x;
        if i > 0 { assert KindText(types[1..][i - 1]) == x; }
      }
    }
  }

  /** `_pick_kind`: one distinct kind wins; a mix prefers d, then j, then p; none means d. */
  function PickKind(types: seq<Option<string>>): string
  {
    var ks := KnownKinds(types);
    if ks == [] then "d"
    else if forall y :: y in ks ==> y == ks[0] then ks[0]
    else if "d" in ks then "d"
    else if "j" in ks then "j"
    else "p"
  }

  lemma PickKindSpec(types: seq<Option<string>>)
    ensures PickKind(types) in Kinds
    ensures KnownKinds(types) == [] ==> PickKind(types) == "d"
    ensures KnownKinds(types) != [] ==> PickKind(types) in KnownKinds(types)
    ensures forall x :: x in Kinds && (forall y :: y in KnownKinds(types) ==> y == x) && x in KnownKinds(types) ==>
      PickKind(types) == x
    ensures "d" in KnownKinds(types) ==> PickKind(types) == "d"
    ensures "d" !in KnownKinds(types) && "j" in KnownKinds(types) ==> PickKind(types) == "j"
  {
    var ks := KnownKinds(types);
    if ks != [] && "d" !in ks && "j" !in ks {
      assert ks[0] == "p" by { assert ks[0] in Kinds; }
    }
  }

  // ----------------------------------------------- kind:code parsing

  /** `(default_kind or "d").strip().lower() or "d"` */
  function DefaultKind(dk: Option<string>): string
  {
    var d := if OrEmpty(dk) == [] then "d" else OrEmpty(dk);
    if Lower(Trim(d)) == [] then "d" else Lower(Trim(d))
  }

  /** `_parse_kind_code`: `kind:code` split at the first colon, or a bare code under the default kind. */
  function ParseKindCode(s: Option<string>, dk: Option<string>): (string, string)
  {
    var raw := Trim(OrEmpty(s));
    if ':' in raw then
      var i := IndexOf(raw, ':');
      var k := Lower(Trim(raw[..i]));
      (if k == [] then DefaultKind(dk) else k, Trim(raw[i + 1..]))
    else (DefaultKind(dk), raw)
  }

  /** The parsed kind is never empty and the code carries no surrounding whitespace. */
  lemma ParseKindCodeShape(s: Option<string>, dk: Option<string>)
    ensures ParseKindCode(s, dk).0 != []
    ensures Trim(ParseKindCode(s, dk).1) == ParseKindCode(s, dk).1
  {
    var raw := Trim(OrEmpty(s));
    assert DefaultKind(dk) != [];
    if ':' in raw {
      var i := IndexOf(raw, ':');
      TrimIdempotent(raw[i + 1..]);
    } else {
      TrimIdempotent(OrEmpty(s));
    }
  }

  /** Writing `kind:code` and parsing it gives the kind and the code back. */
  lemma ParseKindCodeRoundTrip(kind: string, code: string, dk: Option<string>)
    requires kind != [] && ':' !in kind && Trim(kind) == kind && Lower(kind) == kind
    requires Trim(code) == code
    ensures ParseKindCode(Some(kind + ":" + code), dk) == (kind, code)
  {
    var raw := kind + ":" + code;
    TrimSpec(kind);
    TrimSpec(code);
    assert raw[0] == kind[0];
    TrimLeftFixed(raw);
    assert raw[|raw| - 1] == if code == [] then ':' else code[|code| - 1];
    TrimRightFixed(raw);
    assert raw[|kind|] == ':';
    assert raw[..|kind|] == kind;
    IndexOfUnique(raw, ':', |kind|);
    assert raw[|kind| + 1..] == code;
  }

  // ------------------------------------------------------ phrase keys

  /** `_normalize_phrase`: `None` stands for a non-string input. */
  function NormalizePhrase(s: Option<string>): string
  {
    if s.None? || s.value == [] then "" else Lower(Trim(CollapseWs(s.value)))
  }

  /** `_norm_key`: `re.sub(r"\s+", " ", (s or "").strip().lower())` */
  function NormKey(s: string): string { Squeeze(Lower(Trim(s))) }

  lemma {:induction false} LowerSqueeze(t: string)
    ensures Squeeze(Lower(t)) == Lower(Squeeze(t))
    decreases |t|
  {
    if t != [] {
      var l := Lower(t);
      assert IsSpace(l[0]) == IsSpace(t[0]);
      assert l[1..] == Lower(t[1..]);
      if IsSpace(t[0]) {
        LowerTrimLeft(t[1..]);
        LowerSqueeze(TrimLeft(t[1..]));
      } else {
        LowerSqueeze(t[1..]);
      }
    }
  }

  lemma LowerCollapsed(s: string)
    requires Collapsed(s)
    ensures Collapsed(Lower(s)) && NoUpper(Lower(s))
  {
    var l := Lower(s);
    forall i | 0 <= i < |l| - 1 ensures !SpacePairAt(l, i) {
      assert !SpacePairAt(s, i);
      assert l[i] == ' ' ==> s[i] == ' ';
      assert l[i + 1] == ' ' ==> s[i + 1] == ' ';
    }
  }

  /** The two phrase keys agree on every string. */
  lemma NormKeyIsNormalizePhrase(s: string)
    ensures NormKey(s) == NormalizePhrase(Some(s))
  {
    var c := CollapseWs(s);
    TrimLeftFixed(c);
    TrimRightFixed(c);
    LowerTrim(s);
    LowerSqueeze(Trim(s));
    if s == [] { assert Trim(s) == []; }
  }

  /**
   * A phrase key is trimmed, lowercase, with single spaces only, and
   * normalising it again changes nothing.
   */
  lemma NormalizePhraseSpec(s: Option<string>)
    ensures Collapsed(NormalizePhrase(s)) && NoUpper(NormalizePhrase(s))
    ensures NormalizePhrase(Some(NormalizePhrase(s))) == NormalizePhrase(s)
  {
    if s.Some? && s.value != [] {
      var c := CollapseWs(s.value);
      TrimLeftFixed(c);
      TrimRightFixed(c);
      var k := Lower(c);
      LowerCollapsed(c);
      if k != [] {
        CollapseWsFixed(k);
        TrimLeftFixed(k);
        TrimRightFixed(k);
        LowerIdempotent(c);
      }
    }
  }

  // --------------------------------------------------- alias insertion

  const StrongKey := "strong_phrases"
  const WeakKey := "weak_keywords"
  const AnyOfKey := "any_of"
  const MinHitsKey := "min_hits"

  /** `[str(x) for x in xs if str(x).strip()]` */
  function Texts(xs: seq<Item>): (r: seq<string>)
    ensures forall t :: t in r ==> !IsBlank(t)
  {
    if xs == [] then []
    else if IsBlank(Str(xs[0])) then Texts(xs[1..])
    else [Str(xs[0])] + Texts(xs[1..])
  }

  /** A text is listed exactly when some element has it as its non-blank `str()`. */
  lemma {:induction false} TextsSpec(xs: seq<Item>, t: string)
    ensures t in Texts(xs) <==> !IsBlank(t) && exists i :: 0 <= i < |xs| && Str(xs[i]) == t
    decreases |xs|
  {
    if xs != [] {
      TextsSpec(xs[1..], t);
      if t in Texts(xs[1..]) {
        var i :| 0 <= i < |xs[1..]| && Str(xs[1..][i]) == t;
        assert Str(xs[i + 1]) == t;
      }
      if !IsBlank(t) && exists i :: 0 <= i < |xs| && Str(xs[i]) == t {
        var i :| 0 <= i < |xs| && Str(xs[i]) == t;
        if i > 0 { assert Str(xs[1..][i - 1]) == t; }
      }
    }
  }

  /** `_ensure_list(spec, key)`: the non-blank texts of a list, or a fresh empty list. */
  function EnsureList(spec: Spec, key: string): seq<string>
  {
    if key in spec && spec[key].JList? then Texts(spec[key].items) else []
  }

  /** The strong-phrase list after adding `p`: the old non-blank texts, then `p` unless present. */
  function WithStrong(spec: Spec, p: string): seq<string>
  {
    var sp := EnsureList(spec, StrongKey);
    if p in sp then sp else sp + [p]
  }

  /** The weak-keyword object after adding `p` to `any_of`, with `min_hits` defaulting to 1. */
  function WithWeak(spec: Spec, p: string): map<string, Json>
  {
    var wk := if WeakKey in spec && spec[WeakKey].JObj? then spec[WeakKey].fields else map[];
    var anyOf := if AnyOfKey in wk && wk[AnyOfKey].JList? then wk[AnyOfKey].items else [];
    var wk1 := wk[AnyOfKey := JList(if HasText(anyOf, p) then anyOf else anyOf + [IStr(p)])];
    if MinHitsKey in wk1 then wk1 else wk1[MinHitsKey := JAtom("1", true)]
  }

  /** `_add_alias_phrase(spec, phrase, strength)` */
  function AddAlias(spec: Spec, phrase: string, strength: Option<string>): Spec
  {
    var p := Trim(phrase);
    var st := Lower(Trim(if OrEmpty(strength) == [] then "strong" else OrEmpty(strength)));
    if p == [] then spec
    else if st == "weak" then spec[WeakKey := JObj(WithWeak(spec, p))]
    else spec[StrongKey := JList(Strs(WithStrong(spec, p)))]
  }

  /** Only "weak" (any case, any padding) selects the weak list. */
  predicate IsWeak(strength: Option<string>)
  {
    Lower(Trim(if OrEmpty(strength) == [] then "strong" else OrEmpty(strength))) == "weak"
  }

  /**
   * A blank phrase changes nothing. Otherwise the stripped phrase ends up
   * in the chosen list exactly once more than needed (appended only when
   * absent), the old entries stay in front, and every other key is kept;
   * the weak path keeps an existing `min_hits` and defaults it to 1.
   */
  lemma AddAliasSpec(spec: Spec, phrase: string, strength: Option<string>)
    ensures IsBlank(phrase) ==> AddAlias(spec, phrase, strength) == spec
    ensures forall k :: k in spec && k != StrongKey && k != WeakKey ==>
      k in AddAlias(spec, phrase, strength) && AddAlias(spec, phrase, strength)[k] == spec[k]
    ensures !IsBlank(phrase) && !IsWeak(strength) ==>
      var r := AddAlias(spec, phrase, strength);
      StrongKey in r && r[StrongKey] == JList(Strs(WithStrong(spec, Trim(phrase))))
      && Trim(phrase) in WithStrong(spec, Trim(phrase))
      && EnsureList(spec, StrongKey) == WithStrong(spec, Trim(phrase))[..|EnsureList(spec, StrongKey)|]
      && (WeakKey in spec ==> WeakKey in r && r[WeakKey] == spec[WeakKey])
    ensures !IsBlank(phrase) && IsWeak(strength) ==>
      var r := AddAlias(spec, phrase, strength);
      WeakKey in r && r[WeakKey].JObj? && AnyOfKey in r[WeakKey].fields
      && r[WeakKey].fields[AnyOfKey].JList? && HasText(r[WeakKey].fields[AnyOfKey].items, Trim(phrase))
      && MinHitsKey in r[WeakKey].fields
      && (StrongKey in spec ==> StrongKey in r && r[StrongKey] == spec[StrongKey])
  {
    var p := Trim(phrase);
    if p != [] && IsWeak(strength) {
      var w := WithWeak(spec, p);
      var wk := if WeakKey in spec && spec[WeakKey].JObj? then spec[WeakKey].fields else map[];
      var anyOf := if AnyOfKey in wk && wk[AnyOfKey].JList? then wk[AnyOfKey].items else [];
      if !HasText(anyOf, p) {
        assert Str((anyOf + [IStr(p)])[|anyOf|]) == p;
      }
    }
  }

  /** Adding the same phrase twice is adding it once. */
  lemma AddAliasIdempotent(spec: Spec, phrase: string, strength: Option<string>)
    ensures AddAlias(AddAlias(spec, phrase, strength), phrase, strength) == AddAlias(spec, phrase, strength)
  {
    var p := Trim(phrase);
    if p != [] {
      TrimIdempotent(phrase);
      if IsWeak(strength) {
        WeakIdempotent(spec, p);
      } else {
        StrongIdempotent(spec, p);
      }
    }
  }

  lemma WeakIdempotent(spec: Spec, p: string)
    ensures WithWeak(spec[WeakKey := JObj(WithWeak(spec, p))], p) == WithWeak(spec, p)
  {
    var wk := if WeakKey in spec && spec[WeakKey].JObj? then spec[WeakKey].fields else map[];
    var anyOf := if AnyOfKey in wk && wk[AnyOfKey].JList? then wk[AnyOfKey].items else [];
    if !HasText(anyOf, p) {
      assert Str((anyOf + [IStr(p)])[|anyOf|]) == p;
    }
  }

  lemma StrongIdempotent(spec: Spec, p: string)
    requires !IsBlank(p)
    ensures WithStrong(spec[StrongKey := JList(Strs(WithStrong(spec, p)))], p) == WithStrong(spec, p)
  {
    var sp := WithStrong(spec, p);
    TextsOfStrs(sp);
  }

  /** Listing non-blank strings and reading their texts back gives them unchanged. */
  lemma {:induction false} TextsOfStrs(ss: seq<string>)
    requires forall t :: t in ss ==> !IsBlank(t)
    ensures Texts(Strs(ss)) == ss
    decreases |ss|
  {
    if ss != [] {
      assert Strs(ss)[1..] == Strs(ss[1..]);
      TextsOfStrs(ss[1..]);
    }
  }
}
