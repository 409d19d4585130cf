/**
 * Sentence corpora the BM25 evaluation ranks: one document per sentence
 * unit of each published paragraph (`_build_sentence_corpus`).
 * The studio service and the BM25 CLI build them differently and both
 * are modelled: the studio skips table-of-contents paragraphs and short
 * units and numbers units `pid:1..`; the CLI keeps every unit and numbers
 * them `pid#s0..`.
 */
module Corpus {
  import opened Text
  import opened Segment

  /** A row of `published_rag_metadata` as fetched for the corpus. */
  datatype Paragraph = Paragraph(
    id: Option<string>,
    text: Option<string>,
    page: Option<int>,
    section: Option<string>,
    chapter: Option<string>,
    docName: Option<string>)

  datatype SentenceDoc = SentenceDoc(
    sid: string,
    parent: string,
    text: string,
    page: Option<int>,
    section: Option<string>,
    chapter: Option<string>,
    docName: Option<string>)

  function MakeDoc(r: Paragraph, sid: string, pid: string, unit: string): SentenceDoc
  {
    SentenceDoc(sid, pid, unit, r.page, r.section, r.chapter, r.docName)
  }

  /** `(r.get("text") or "").strip()` */
  function ParagraphText(r: Paragraph): string
  {
    match r.text
    case None => ""
    case Some(t) => Trim(t)
  }

  // ------------------------------------------------------------- studio

  const MinStudioUnit: nat := 25
  const TocWindow: nat := 250
  const DotLeader: string := "......"

  /** `str(r.get("id") or "")` */
  function StudioPid(r: Paragraph): string
  {
    match r.id
    case None => ""
    case Some(s) => s
  }

  /** `re.search(r"\.{6,}", txt[:250])`: a dot leader near the start marks a table of contents. */
  predicate IsTocText(txt: string) { Contains(Take(txt, TocWindow), DotLeader) }

  /** The studio's documents for the units of one paragraph, numbered from 1 (defined from the last unit). */
  function StudioDocsFor(r: Paragraph, pid: string, units: seq<string>): seq<SentenceDoc>
    decreases |units|
  {
    if units == [] then []
    else
      var n := |units|;
      var last := units[n - 1];
      StudioDocsFor(r, pid, units[..n - 1])
        + (if |last| < MinStudioUnit then [] else [MakeDoc(r, pid + ":" + NatToString(n), pid, last)])
  }

  predicate StudioSkips(r: Paragraph)
  {
    StudioPid(r) == [] || ParagraphText(r) == [] || IsTocText(ParagraphText(r))
  }

  function StudioParagraphDocs(r: Paragraph): seq<SentenceDoc>
  {
    if StudioSkips(r) then []
    else StudioDocsFor(r, StudioPid(r), SplitSentences(ParagraphText(r)))
  }

  function StudioCorpus(rows: seq<Paragraph>): seq<SentenceDoc>
    decreases |rows|
  {
    if rows == [] then [] else StudioCorpus(rows[..|rows| - 1]) + StudioParagraphDocs(rows[|rows| - 1])
  }

  /** The documents of one kept paragraph, unit by unit. */
  method BuildStudioDocs(r: Paragraph, pid: string, units: seq<string>) returns (docs: seq<SentenceDoc>)
    ensures docs == StudioDocsFor(r, pid, units)
  {
    docs := [];
    var j := 0;
    while j < |units|
      invariant 0 <= j <= |units|
      invariant docs == StudioDocsFor(r, pid, units[..j])
    {
      assert units[..j + 1][..j] == units[..j];
      if |units[j]| >= MinStudioUnit {
        docs := docs + [MakeDoc(r, pid + ":" + NatToString(j + 1), pid, units[j])];
      }
      j := j + 1;
    }
    assert units[..j] == units;
  }

  lemma StudioCorpusStep(rows: seq<Paragraph>, i: nat)
    requires i < |rows|
    ensures StudioCorpus(rows[..i + 1]) == StudioCorpus(rows[..i]) + StudioParagraphDocs(rows[i])
  {
    assert rows[..i + 1][..i] == rows[..i];
  }

  /** `_build_sentence_corpus` of the studio service. */
  method BuildStudioCorpus(rows: seq<Paragraph>) returns (corpus: seq<SentenceDoc>)
    ensures corpus == StudioCorpus(rows)
  {
    corpus := [];
    var i := 0;
    while i < |rows|
      invariant 0 <= i <= |rows|
      invariant corpus == StudioCorpus(rows[..i])
    {
      var r := rows[i];
      StudioCorpusStep(rows, i);
      if !StudioSkips(r) {
        var docs := BuildStudioDocs(r, StudioPid(r), SplitSentences(ParagraphText(r)));
        corpus := corpus + docs;
      }
      i := i + 1;
    }
    assert rows[..i] == rows;
  }

  /**
   * Exactly the units of at least 25 characters become documents, each
   * carrying its 1-based position among all units of the paragraph (so
   * dropped units leave gaps in the numbering).
   */
  lemma {:induction false} StudioDocsForMembers(r: Paragraph, pid: string, units: seq<string>, d: SentenceDoc)
    ensures d in StudioDocsFor(r, pid, units) <==>
      exists j :: 0 <= j < |units| && |units[j]| >= MinStudioUnit
        && d == MakeDoc(r, pid + ":" + NatToString(j + 1), pid, units[j])
    decreases |units|
  {
    if units != [] {
      var n := |units|;
      var init := units[..n - 1];
      StudioDocsForMembers(r, pid, init, d);
      if exists j :: 0 <= j < |units| && |units[j]| >= MinStudioUnit
          && d == MakeDoc(r, pid + ":" + NatToString(j + 1), pid, units[j]) {
        var j :| 0 <= j < |units| && |units[j]| >= MinStudioUnit
          && d == MakeDoc(r, pid + ":" + NatToString(j + 1), pid, units[j]);
        if j < n - 1 { assert init[j] == units[j]; }
      }
      if exists j :: 0 <= j < |init| && |init[j]| >= MinStudioUnit
          && d == MakeDoc(r, pid + ":" + NatToString(j + 1), pid, init[j]) {
        var j :| 0 <= j < |init| && |init[j]| >= MinStudioUnit
          && d == MakeDoc(r, pid + ":" + NatToString(j + 1), pid, init[j]);
        assert init[j] == units[j];
      }
    }
  }

  /** Concatenation of per-paragraph document lists, defined from the last list. */
  function Concat(parts: seq<seq<SentenceDoc>>): seq<SentenceDoc>
    decreases |parts|
  {
    if parts == [] then [] else Concat(parts[..|parts| - 1]) + parts[|parts| - 1]
  }

  lemma {:induction false} ConcatMembers(parts: seq<seq<SentenceDoc>>, d: SentenceDoc)
    ensures d in Concat(parts) <==> exists k :: 0 <= k < |parts| && d in parts[k]
    decreases |parts|
  {
    if parts != [] {
      var init := parts[..|parts| - 1];
      ConcatMembers(init, d);
      assert forall k :: 0 <= k < |init| ==> init[k] == parts[k];
    }
  }

  function StudioParts(rows: seq<Paragraph>): (parts: seq<seq<SentenceDoc>>)
    ensures |parts| == |rows|
    ensures forall k :: 0 <= k < |rows| ==> parts[k] == StudioParagraphDocs(rows[k])
  {
    seq(|rows|, k requires 0 <= k < |rows| => StudioParagraphDocs(rows[k]))
  }

  lemma {:induction false} StudioCorpusConcat(rows: seq<Paragraph>)
    ensures StudioCorpus(rows) == Concat(StudioParts(rows))
    decreases |rows|
  {
    if rows != [] {
      var init := rows[..|rows| - 1];
      StudioCorpusConcat(init);
      assert StudioParts(rows)[..|rows| - 1] == StudioParts(init);
    }
  }

  /** A document is in the studio corpus iff some paragraph row produced it. */
  lemma StudioCorpusMembers(rows: seq<Paragraph>, d: SentenceDoc)
    ensures d in StudioCorpus(rows) <==> exists k :: 0 <= k < |rows| && d in StudioParagraphDocs(rows[k])
  {
    StudioCorpusConcat(rows);
    ConcatMembers(StudioParts(rows), d);
  }

  /**
   * Every studio document comes from a paragraph with an id, non-empty text
   * and no dot leader in its first 250 characters; it is a unit of that
   * paragraph of at least 25 characters, its parent is the paragraph id, and
   * its sid is `pid:i` for the unit's 1-based position i.
   */
  lemma StudioCorpusSound(rows: seq<Paragraph>, d: SentenceDoc)
    requires d in StudioCorpus(rows)
    ensures exists k, j :: (0 <= k < |rows| && !StudioSkips(rows[k])
      && 0 <= j < |SplitSentences(ParagraphText(rows[k]))|
      && d.text == SplitSentences(ParagraphText(rows[k]))[j]
      && |d.text| >= MinStudioUnit
      && d.parent == StudioPid(rows[k]) != []
      && d.sid == d.parent + ":" + NatToString(j + 1))
  {
    StudioCorpusMembers(rows, d);
    var k :| 0 <= k < |rows| && d in StudioParagraphDocs(rows[k]);
    var r := rows[k];
    assert !StudioSkips(r);
    var units := SplitSentences(ParagraphText(r));
    StudioDocsForMembers(r, StudioPid(r), units, d);
    var j :| 0 <= j < |units| && |units[j]| >= MinStudioUnit
      && d == MakeDoc(r, StudioPid(r) + ":" + NatToString(j + 1), StudioPid(r), units[j]);
    assert d.text == units[j] && d.parent == StudioPid(r);
  }

  /** Conversely, every long-enough unit of a kept paragraph is in the studio corpus. */
  lemma StudioCorpusComplete(rows: seq<Paragraph>, k: nat, j: nat)
    requires k < |rows| && !StudioSkips(rows[k])
    requires j < |SplitSentences(ParagraphText(rows[k]))|
    requires |SplitSentences(ParagraphText(rows[k]))[j]| >= MinStudioUnit
    ensures MakeDoc(rows[k], StudioPid(rows[k]) + ":" + NatToString(j + 1), StudioPid(rows[k]),
                    SplitSentences(ParagraphText(rows[k]))[j]) in StudioCorpus(rows)
  {
    var r := rows[k];
    var units := SplitSentences(ParagraphText(r));
    var d := MakeDoc(r, StudioPid(r) + ":" + NatToString(j + 1), StudioPid(r), units[j]);
    StudioDocsForMembers(r, StudioPid(r), units, d);
    StudioCorpusMembers(rows, d);
  }

  // ---------------------------------------------------------------- CLI

  /** `str(r.get("id"))`: a missing id prints as "None". */
  function CliPid(r: Paragraph): string
  {
    match r.id
    case None => "None"
    case Some(s) => s
  }

  /** The CLI's documents for the units of one paragraph, numbered from 0 (defined from the last unit). */
  function CliDocsFor(r: Paragraph, pid: string, units: seq<string>): seq<SentenceDoc>
    decreases |units|
  {
    if units == [] then []
    else
      var n := |units|;
      CliDocsFor(r, pid, units[..n - 1]) + [MakeDoc(r, pid + "#s" + NatToString(n - 1), pid, units[n - 1])]
  }

  /** `if not txt: continue` then one document per unit. */
  function CliParagraphDocs(r: Paragraph): seq<SentenceDoc>
  {
    if ParagraphText(r) == [] then [] else CliDocsFor(r, CliPid(r), SplitSentences(ParagraphText(r)))
  }

  function CliCorpus(rows: seq<Paragraph>): seq<SentenceDoc>
    decreases |rows|
  {
    if rows == [] then [] else CliCorpus(rows[..|rows| - 1]) + CliParagraphDocs(rows[|rows| - 1])
  }

  /** The documents of one paragraph with text, unit by unit. */
  method BuildCliDocs(r: Paragraph, pid: string, units: seq<string>) returns (docs: seq<SentenceDoc>)
    ensures docs == CliDocsFor(r, pid, units)
  {
    docs := [];
    var j := 0;
    while j < |units|
      invariant 0 <= j <= |units|
      invariant docs == CliDocsFor(r, pid, units[..j])
    {
      assert units[..j + 1][..j] == units[..j];
      docs := docs + [MakeDoc(r, pid + "#s" + NatToString(j), pid, units[j])];
      j := j + 1;
    }
    assert units[..j] == units;
  }

  lemma CliCorpusStep(rows: seq<Paragraph>, i: nat)
    requires i < |rows|
    ensures CliCorpus(rows[..i + 1]) == CliCorpus(rows[..i]) + CliParagraphDocs(rows[i])
  {
    assert rows[..i + 1][..i] == rows[..i];
  }

  /** `_build_sentence_corpus` of the BM25 CLI. */
  method BuildCliCorpus(rows: seq<Paragraph>) returns (corpus: seq<SentenceDoc>)
    ensures corpus == CliCorpus(rows)
  {
    corpus := [];
    var i := 0;
    while i < |rows|
      invariant 0 <= i <= |rows|
      invariant corpus == CliCorpus(rows[..i])
    {
      var r := rows[i];
      CliCorpusStep(rows, i);
      var txt := ParagraphText(r);
      if txt != [] {
        var docs := BuildCliDocs(r, CliPid(r), SplitSentences(txt));
        corpus := corpus + docs;
      }
      i := i + 1;
    }
    assert rows[..i] == rows;
  }

  /**
   * The CLI keeps every unit: the j-th document of a paragraph is its j-th
   * unit, with the paragraph id as parent and sid `pid#s{j}`, so sids are
   * consecutive from `#s0`.
   */
  lemma {:induction false} CliDocsForIndex(r: Paragraph, pid: string, units: seq<string>)
    ensures |CliDocsFor(r, pid, units)| == |units|
    ensures forall j :: 0 <= j < |units| ==>
      CliDocsFor(r, pid, units)[j] == MakeDoc(r, pid + "#s" + NatToString(j), pid, units[j])
    decreases |units|
  {
    if units != [] {
      var n := |units|;
      var init := units[..n - 1];
      CliDocsForIndex(r, pid, init);
      forall j | 0 <= j < n
        ensures CliDocsFor(r, pid, units)[j] == MakeDoc(r, pid + "#s" + NatToString(j), pid, units[j])
      {
        if j < n - 1 { assert init[j] == units[j]; }
      }
    }
  }

  /** The CLI corpus is as long as all units of all paragraphs together: nothing is filtered. */
  lemma {:induction false} CliCorpusSize(rows: seq<Paragraph>)
    ensures |CliCorpus(rows)| == TotalUnits(rows)
    decreases |rows|
  {
    if rows != [] {
      var r := rows[|rows| - 1];
      CliCorpusSize(rows[..|rows| - 1]);
      if ParagraphText(r) != [] { CliDocsForIndex(r, CliPid(r), SplitSentences(ParagraphText(r))); }
    }
  }

  function TotalUnits(rows: seq<Paragraph>): nat
    decreases |rows|
  {
    if rows == [] then 0 else TotalUnits(rows[..|rows| - 1]) + |SplitSentences(ParagraphText(rows[|rows| - 1]))|
  }

  /** The studio corpus never holds more documents than the CLI corpus of the same rows. */
  lemma {:induction false} StudioNoLargerThanCli(rows: seq<Paragraph>)
    ensures |StudioCorpus(rows)| <= |CliCorpus(rows)|
    decreases |rows|
  {
    if rows != [] {
      var r := rows[|rows| - 1];
      StudioNoLargerThanCli(rows[..|rows| - 1]);
      if !StudioSkips(r) {
        StudioDocsForSize(r, StudioPid(r), SplitSentences(ParagraphText(r)));
        CliDocsForIndex(r, CliPid(r), SplitSentences(ParagraphText(r)));
      }
    }
  }

  lemma {:induction false} StudioDocsForSize(r: Paragraph, pid: string, units: seq<string>)
    ensures |StudioDocsFor(r, pid, units)| <= |units|
    decreases |units|
  {
    if units != [] { StudioDocsForSize(r, pid, units[..|units| - 1]); }
  }
}
