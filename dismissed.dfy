/**
 * Dismissed health issues of the lexicon service: the fingerprint that
 * identifies an issue across analyses, and the once-only creation of the
 * table that stores dismissals.
 */
module Dismissed {
  import opened Text
  import opened Sorting

  /** `t.strip().lower()` */
  function TagKey(t: string): string { Lower(Trim(t)) }

  /** The normalised tags, in the given order, duplicates included. */
  function TagKeys(tags: seq<string>): (r: seq<string>)
    ensures |r| == |tags|
  {
    seq(|tags|, i requires 0 <= i < |tags| => TagKey(tags[i]))
  }

  /** `f"{issue_type}::{','.join(sorted(t.strip().lower() for t in tags))}"` */
  function Fingerprint(issueType: string, tags: seq<string>): string
  {
    issueType + "::" + Join(SortStrings(TagKeys(tags)), ",")
  }

  /**
   * The fingerprint depends on the tags only through the multiset of their
   * normalised forms: two tag lists whose keys agree up to order give the
   * same fingerprint.
   */
  lemma FingerprintByKeys(issueType: string, tags1: seq<string>, tags2: seq<string>)
    requires multiset(TagKeys(tags1)) == multiset(TagKeys(tags2))
    ensures Fingerprint(issueType, tags1) == Fingerprint(issueType, tags2)
  {
    SortStringsSpec(TagKeys(tags1));
    SortStringsSpec(TagKeys(tags2));
    SortedStringsUnique(SortStrings(TagKeys(tags1)), SortStrings(TagKeys(tags2)));
  }

  /** Reordering the tags does not change the fingerprint. */
  lemma FingerprintPermutation(issueType: string, tags1: seq<string>, tags2: seq<string>)
    requires multiset(tags1) == multiset(tags2)
    ensures Fingerprint(issueType, tags1) == Fingerprint(issueType, tags2)
  {
    KeysPermutation(tags1, tags2);
    FingerprintByKeys(issueType, tags1, tags2);
  }

  /** Normalising tags maps a permutation to a permutation. */
  lemma KeysPermutation(tags1: seq<string>, tags2: seq<string>)
    requires multiset(tags1) == multiset(tags2)
    ensures multiset(TagKeys(tags1)) == multiset(TagKeys(tags2))
  {
    MapPermutation(tags1, tags2, TagKey);
    assert TagKeys(tags1) == MapAll(tags1, TagKey);
    assert TagKeys(tags2) == MapAll(tags2, TagKey);
  }

  /** `[f(x) for x in xs]` */
  function MapAll<T, U>(xs: seq<T>, f: T -> U): (r: seq<U>)
    ensures |r| == |xs|
  {
    seq(|xs|, i requires 0 <= i < |xs| => f(xs[i]))
  }

  /** Mapping a function over two permutations of each other gives two permutations. */
  lemma {:induction false} MapPermutation<T, U>(xs: seq<T>, ys: seq<T>, f: T -> U)
    requires multiset(xs) == multiset(ys)
    ensures multiset(MapAll(xs, f)) == multiset(MapAll(ys, f))
    decreases |xs|
  {
    if xs == [] {
      assert |ys| == |multiset(ys)| == 0;
      assert MapAll(ys, f) == [];
    } else {
      var j := PickMatch(xs, ys);
      MapPermutation(xs[1..], ys[..j] + ys[j + 1..], f);
      assert xs[..0] + xs[1..] == xs[1..];
      MapRemoveAt(xs, 0, f);
      MapRemoveAt(ys, j, f);
    }
  }

  /** Where the first element sits in a permutation, and what is left on either side. */
  lemma PickMatch<T>(xs: seq<T>, ys: seq<T>) returns (j: nat)
    requires xs != [] && multiset(xs) == multiset(ys)
    ensures j < |ys| && ys[j] == xs[0]
    ensures multiset(xs[1..]) == multiset(ys[..j] + ys[j + 1..])
  {
    assert xs[0] in multiset(ys);
    j :| 0 <= j < |ys| && ys[j] == xs[0];
    RemoveAt(ys, j);
    assert xs == [xs[0]] + xs[1..];
    Cancel(multiset(xs[1..]), multiset(ys[..j] + ys[j + 1..]), xs[0]);
  }

  /** Dropping the element at `j` removes one copy of it from the multiset. */
  lemma RemoveAt<T>(s: seq<T>, j: nat)
    requires j < |s|
    ensures multiset(s) == multiset(s[..j] + s[j + 1..]) + multiset{s[j]}
  {
    assert s == s[..j] + [s[j]] + s[j + 1..];
  }

  lemma Cancel<T>(a: multiset<T>, b: multiset<T>, x: T)
    requires a + multiset{x} == b + multiset{x}
    ensures a == b
  {
    assert forall y :: a[y] == (a + multiset{x})[y] - multiset{x}[y];
    assert forall y :: b[y] == (b + multiset{x})[y] - multiset{x}[y];
  }

  /** Mapping without the element at `j` drops that element's image. */
  lemma MapRemoveAt<T, U>(s: seq<T>, j: nat, f: T -> U)
    requires j < |s|
    ensures multiset(MapAll(s, f)) == multiset(MapAll(s[..j] + s[j + 1..], f)) + multiset{f(s[j])}
  {
    var k := MapAll(s, f);
    assert MapAll(s[..j] + s[j + 1..], f) == k[..j] + k[j + 1..];
    RemoveAt(k, j);
  }

  /** Tags that differ only in case or surrounding whitespace give the same fingerprint. */
  lemma FingerprintNormalised(issueType: string, tags: seq<string>)
    ensures Fingerprint(issueType, TagKeys(tags)) == Fingerprint(issueType, tags)
  {
    forall i | 0 <= i < |tags| ensures TagKey(TagKey(tags[i])) == TagKey(tags[i]) {
      TagKeyIdempotent(tags[i]);
    }
    assert TagKeys(TagKeys(tags)) == TagKeys(tags);
  }

  lemma TagKeyIdempotent(t: string)
    ensures TagKey(TagKey(t)) == TagKey(t)
  {
    LowerTrim(Lower(Trim(t)));
    LowerTrim(t);
    TrimIdempotent(Lower(t));
    LowerIdempotent(Trim(t));
  }

  /**
   * The issue type is kept verbatim: two issue types of the same length that
   * differ (for instance only in case) never share a fingerprint.
   */
  lemma IssueTypeVerbatim(type1: string, type2: string, tags1: seq<string>, tags2: seq<string>)
    requires |type1| == |type2| && type1 != type2
    ensures Fingerprint(type1, tags1) != Fingerprint(type2, tags2)
  {
    var i :| 0 <= i < |type1| && type1[i] != type2[i];
    assert Fingerprint(type1, tags1)[i] == type1[i];
    assert Fingerprint(type2, tags2)[i] == type2[i];
  }

  /** A repeated tag is kept twice, so it does not match the single tag. */
  lemma DuplicatesKept(issueType: string, tag: string)
    ensures Fingerprint(issueType, [tag, tag]) == issueType + "::" + TagKey(tag) + "," + TagKey(tag)
    ensures Fingerprint(issueType, [tag, tag]) != Fingerprint(issueType, [tag])
  {
    var k := TagKey(tag);
    assert TagKeys([tag, tag]) == [k, k];
    assert TagKeys([tag]) == [k];
    StrLeTotal(k, k);
    assert SortStrings([k]) == [k];
    assert SortStrings([k, k]) == [k, k];
    assert |Fingerprint(issueType, [tag, tag])| > |Fingerprint(issueType, [tag])|;
  }

  /**
   * The module-wide flag of `ensure_dismissed_table` and the table it guards.
   * The `CREATE TABLE IF NOT EXISTS` statement either succeeds or raises;
   * which one happens is the parameter `createSucceeds`.
   */
  class DismissedTable {
    var ensured: bool
    var tableExists: bool

    /** The flag is only ever set while the table is there. */
    predicate Valid()
      reads this
    {
      ensured ==> tableExists
    }

    constructor (present: bool)
      ensures Valid() && !ensured && tableExists == present
    {
      ensured := false;
      tableExists := present;
    }

    /**
     * Once the flag is set nothing happens; otherwise the statement runs and
     * the flag is set exactly when it succeeds, a failure being swallowed.
     */
    method Ensure(createSucceeds: bool)
      requires Valid()
      modifies this
      ensures Valid()
      ensures old(ensured) ==> ensured && tableExists == old(tableExists)
      ensures !old(ensured) ==> ensured == createSucceeds
      ensures !old(ensured) ==> tableExists == (old(tableExists) || createSucceeds)
      ensures ensured == (old(ensured) || createSucceeds)
    {
      if ensured {
        return;
      }
      if createSucceeds {
        tableExists := true;
        ensured := true;
      }
    }
  }
}
