# Mobius-Master: a verified model of the retrieval-evaluation engine and its helpers

This project is a Dafny model of the deterministic core of the Mobius-Master
repository. It covers five areas:

* **Retrieval evaluation.** The retrieval-evaluation studio service and the
  command-line evaluators. This includes sentence segmentation and the sentence
  corpus, gold-evidence matching, BM25 top-k ranking and the answer/abstain
  decision. It also covers the vector path's similarity, document filter and hit
  flags, the per-run summary, and the run store with its queued → running →
  completed | failed lifecycle. Question import and generation are included too.
* **The comparison report and the question-set builders.**
* **The policy-lexicon service.** This covers the tag-code grammar, kinds and
  aliases, spec merges and phrase normalisation. It also covers the lexicon
  table with its merge, PATCH, cleanup, review and apply-operations endpoints,
  the candidate and catalog tables, dismissal fingerprints and the reload
  script.
* **The email and cost-report skills.**
* **Small parsers and decision tables.** These are the chat-QA bot, the
  adjudicator, the landing server and the maintenance scripts.

Some things stay outside the model: databases, language models, the vector
service, the file system and the clock. These become function parameters or
input data. Lists and dictionaries that a handler changes in place become
`seq`/`map` fields of a class (`RunStore.Store`, `QuestionImport.QuestionBank`,
`LexTable.Lexicon`, …) whose methods state their whole new state.

Modules are one per concern. `Text` holds the string helpers that the rest
share: Python's `strip`, `lower`, whitespace collapse, `in`, `replace`, integer
formatting, and counting/filtering over sequences. `Unicode` holds Python's UTF-8 codec: encoding, and
decoding with `"replace"`, which the email link and the database URLs both use.

## Model

| member | source | states |
|---|---|---|
| Segment.Tokenize | mobius-qa/retrieval-eval-studio/app/main.py:662-663 | every token is a non-empty run of `[a-z0-9]` characters (its content is stated by TokenizeContent) |
| Segment.TokenizeContent | mobius-qa/retrieval-eval/bm25_eval.py:59-61 | tokenising keeps exactly the lowercased alphanumeric characters (digits included) and every token is lowercase |
| Segment.WordRunsFlatten | mobius-qa/retrieval-eval/bm25_eval.py:59-61 | the concatenated tokens are exactly the word characters of the input: only separators are lost |
| Segment.SplitSentences | mobius-qa/retrieval-eval-studio/app/main.py:666-681 | blank text gives no units, and no unit is empty or has surrounding white space |
| Segment.BoundaryIsOneSpace | mobius-qa/retrieval-eval/bm25_eval.py:71-73 | in whitespace-collapsed text every sentence boundary is exactly one space |
| Segment.SentencePartsClean | mobius-qa/retrieval-eval/bm25_eval.py:71-78 | splitting collapsed text at sentence boundaries gives parts that are non-empty and have no whitespace at either end |
| Segment.SentencePartsJoin | mobius-qa/retrieval-eval/bm25_eval.py:71-78 | splitting collapsed text at sentence boundaries loses nothing: joining the parts with one space gives the text back |
| Segment.SplitSentencesJoin | mobius-qa/retrieval-eval/bm25_eval.py:64-85 | when no sentence is longer than 420 characters, the units joined by single spaces are exactly the whitespace-collapsed text |
| Segment.UnitsOf | mobius-qa/retrieval-eval/bm25_eval.py:75-84 | every unit a sentence part contributes is non-empty and stripped |
| Corpus.BuildStudioCorpus | mobius-qa/retrieval-eval-studio/app/main.py:757-782 | the loop builds exactly the studio corpus of the paragraph rows |
| Corpus.StudioDocsForMembers | mobius-qa/retrieval-eval-studio/app/main.py:767-770 | exactly the units of at least 25 characters become documents, each with sid `pid:i` for its 1-based position among all units, so dropped units leave gaps |
| Corpus.StudioCorpusSound | mobius-qa/retrieval-eval-studio/app/main.py:757-782 | every studio document comes from a row with an id, non-empty text and no dot leader of six or more dots in its first 250 characters; it is a long-enough unit, its parent is the row id, and its sid is `pid:i` |
| Corpus.StudioCorpusComplete | mobius-qa/retrieval-eval-studio/app/main.py:759-781 | conversely, every long-enough unit of a kept paragraph is in the corpus |
| Corpus.StudioCorpusMembers | mobius-qa/retrieval-eval-studio/app/main.py:759-781 | a document is in the corpus iff some paragraph row produced it |
| Corpus.BuildCliCorpus | mobius-qa/retrieval-eval/bm25_eval.py:140-161 | the loop builds exactly the CLI corpus of the paragraph rows |
| Corpus.CliDocsForIndex | mobius-qa/retrieval-eval/bm25_eval.py:147-154 | the j-th document of a paragraph is its j-th unit, with the paragraph id as parent and sid `pid#s{j}` (consecutive from `#s0`) |
| Corpus.CliCorpusSize | mobius-qa/retrieval-eval/bm25_eval.py:140-161 | nothing is filtered: the CLI corpus is as long as all units of all paragraphs with text |
| Corpus.StudioNoLargerThanCli | mobius-qa/retrieval-eval-studio/app/main.py:763-769 | the studio corpus never holds more documents than the CLI corpus of the same rows |
| Gold.ListNeedlesMembers | mobius-qa/retrieval-eval-studio/app/main.py:805-810 | a list field contributes exactly the non-blank stripped `str()` of its elements |
| Gold.FirstNeedleSpec | mobius-qa/retrieval-eval-studio/app/main.py:811-813 | the reported needle occurs case-insensitively in the text and every earlier needle does not; nothing is reported iff no needle occurs |
| Gold.GoldMatchPrecedence | mobius-qa/retrieval-eval-studio/app/main.py:793-821 | a parent-id match iff the candidate's paragraph is a gold parent; else a substring match iff some needle occurs; else a regex match iff the pattern is valid and found; else no match, and non-dict gold never matches |
| Gold.ContainsReportsFirstNeedle | mobius-qa/retrieval-eval-studio/app/main.py:804-813 | a substring match reports the earliest occurring needle in answer-then-crux list order |
| Gold.WhyText | mobius-qa/retrieval-eval-studio/app/main.py:802-818 | a substring reason starts with `contains:` and carries at most 48 characters of the needle |
| Gold.MatchCandidate | mobius-qa/retrieval-eval/bm25_eval.py:251-290 | the needle loop that stops at the first hit computes the rule-precedence match |
| Gold.InvalidRegexIsNoMatch | mobius-qa/retrieval-eval-studio/app/main.py:814-820 | an invalid pattern never matches and never fails: the outcome is as if no regex were given |
| Gold.ParentIdWins | mobius-qa/retrieval-eval-studio/app/main.py:800-802 | a gold parent id wins whatever the text and the other evidence say |
| Gold.NeedleCaseInsensitive | mobius-qa/retrieval-eval-studio/app/main.py:803-812 | two needles, and two texts, that agree once lowercased get the same verdict: case never changes whether a needle hits |
| Calibration.Sort | mobius-qa/retrieval-eval-studio/app/main.py:839 | sorting returns the values in ascending order, as a permutation of the input |
| Calibration.StudioP90NotBelowMedian | mobius-qa/retrieval-eval-studio/app/main.py:840-841 | for n ≥ 3 the "p90" index `max(0, ⌊0.9n⌋−1)` lies between the median index `n/2` and n − 1 |
| Calibration.StudioSlopePositive | mobius-qa/retrieval-eval-studio/app/main.py:835-845 | with one value or at least three, the centre is the median and the slope is positive |
| Calibration.StudioTwoScoresNegativeSlope | mobius-qa/retrieval-eval-studio/app/main.py:840-844 | with exactly two distinct maxima the "p90" value lies below the median and the slope is negative |
| Calibration.StudioFixedSlopePositive | mobius-qa/retrieval-eval-studio/app/main.py:835-845 | with the p90 index clamped to the median index, the slope is positive for every non-empty input, and the fit agrees with the original from three values on |
| Calibration.TopkFallbacks | mobius-qa/retrieval-eval/bm25_eval.py:184-189 | no scores gives (1, 0); a top and last score within 1e-9 gives slope 1 centred on the top score |
| Calibration.TopkHitsTargets | mobius-qa/retrieval-eval/bm25_eval.py:191-203 | away from the fallbacks the fit is exact: k·(hi − x0) = logit(target_top) and k·(lo − x0) = logit(target_k) |
| Calibration.TopkSlopePositive | mobius-qa/retrieval-eval/bm25_eval.py:177-203 | with scores best first and a higher top target, the slope is positive |
| Calibration.RoundQuarter | mobius-qa/retrieval-eval/bm25_eval.py:227 | the result is an integer nearest to n/4 |
| Calibration.QuantileIndexMonotone | mobius-qa/retrieval-eval/bm25_eval.py:224-228 | the nearest-rank quantile index is in range and grows with p |
| Calibration.CliMaxRawSpec | mobius-qa/retrieval-eval/bm25_eval.py:216-233 | no scores give the identity; fewer than four give slope 1 at the middle sorted value; flat quartiles give slope 1 at the median; otherwise the fit goes through the 25th and 75th percentiles, which are strictly ordered |
| Calibration.SortedFitQuartiles | mobius-qa/retrieval-eval/bm25_eval.py:218-240 | away from the fallbacks the fit is the quartile fit of the sorted scores, and the upper quartile lies above the lower one |
| Calibration.QuartileFit | mobius-qa/retrieval-eval/bm25_eval.py:235-240 | x0 = (q25+q75)/2 and k = 2·ln3/(q75−q25) > 0, so k·(q75−x0) = ln 3 = −k·(q25−x0): q75 maps to 0.75 and q25 to 0.25 |
| Ranking.SliceTo | mobius-qa/retrieval-eval-studio/app/main.py:892 | Python's `s[:k]` for any integer k, a negative k dropping items from the end |
| Ranking.TopIndicesSpec | mobius-qa/retrieval-eval-studio/app/main.py:892 | the top-k list has the slice's length and holds distinct corpus positions in descending score order (ties in corpus order); every kept sentence scores higher than every dropped one, or the same and earlier |
| Ranking.TopIsMax | mobius-qa/retrieval-eval-studio/app/main.py:892-896 | the first kept sentence has the highest score in the corpus |
| Ranking.FirstRankSpec | mobius-qa/retrieval-eval-studio/app/main.py:902-909 | the rank found is a true flag with only false flags before it; none is found iff all flags are false |
| Ranking.BestGoldRank | mobius-qa/retrieval-eval-studio/app/main.py:902-909 | the loop that stops at the first match reports the first matching rank and the matcher's reason for it |
| Ranking.BestGoldSpec | mobius-qa/retrieval-eval-studio/app/main.py:902-909 | the reported rank is a matching rank with no match before it; no rank iff nothing matches |
| Ranking.Bm25RowsRanks | mobius-qa/retrieval-eval-studio/app/main.py:926-940 | rows carry contiguous ranks 1..n, and each row's match flag and reason are the matcher's verdict on its sentence |
| Ranking.StudioDecisionIgnoresGold | mobius-qa/retrieval-eval-studio/app/main.py:896-900 | the decision ignores the gold: equal questions get the same top score and verdict, and a false positive is exactly an answer to a question not expected in the manual |
| Ranking.StudioTopScoreIsMax | mobius-qa/retrieval-eval-studio/app/main.py:892-896 | the normalised top score is the sigmoid of the corpus's highest raw score, absent only when nothing is kept |
| Ranking.StudioBestRankIsFirstMatch | mobius-qa/retrieval-eval-studio/app/main.py:902-909 | the gold rank is the first rank within top k whose sentence matches; none when no kept sentence matches |
| Ranking.EvalStudioQuestion | mobius-qa/retrieval-eval-studio/app/main.py:885-940 | the per-question method computes that question's verdict and rows |
| Ranking.Bm25ScopeError | mobius-qa/retrieval-eval-studio/app/main.py:855-866 | the scope checks run in source order: a missing database URL, then no documents and no authority; none when the corpus can be fetched |
| Ranking.StudioVerdictsAt | mobius-qa/retrieval-eval-studio/app/main.py:885-924 | the i-th verdict is the i-th question's: questions are evaluated independently and in order |
| Ranking.StudioBm25EvalShape | mobius-qa/retrieval-eval-studio/app/main.py:855-941 | a missing URL or scope, or an empty corpus, fails before any per-question output; otherwise there is one verdict per question |
| Ranking.CollectMaxRaws | mobius-qa/retrieval-eval-studio/app/main.py:873-881 | the fit input is each question's maximum raw score (0 for an empty score list), in question order |
| Ranking.EvalStudioQuestions | mobius-qa/retrieval-eval-studio/app/main.py:883-941 | the question loop produces every question's verdict, in order, and all their rows |
| Ranking.RunStudioBm25 | mobius-qa/retrieval-eval-studio/app/main.py:848-941 | check the scope, build the corpus, fit the sigmoid over all questions, then rank each question |
| Hier.Similarity | mobius-qa/retrieval-eval-studio/app/main.py:1204-1211 | no similarity without a distance; otherwise clamp(1 − d/2) into [0, 1] |
| Hier.SimilarityAntitone | mobius-qa/retrieval-eval-studio/app/main.py:1204-1211 | a closer neighbour is never less similar |
| Hier.DocAllow | mobius-qa/retrieval-eval-studio/app/main.py:1258 | the allow-list holds the non-blank `str()` of the ids, and filtering is on only when it is non-empty |
| Hier.FetchK | mobius-qa/retrieval-eval-studio/app/main.py:1260-1263 | without filtering the fetch size is top_k; with filtering it is 50, 200 or 8·top_k, lies in [50, 200], and is at least top_k for top_k in 1..25 |
| Hier.FilterSpecProps | mobius-qa/retrieval-eval-studio/app/main.py:1292-1302 | the filtered list keeps only allowed neighbours in service order (a prefix of all allowed ones), and at most top_k of them when top_k ≥ 1 (at most one otherwise) |
| Hier.FilterNeighbors | mobius-qa/retrieval-eval-studio/app/main.py:1292-1302 | the filter loop computes that prefix |
| Hier.HierGoldSet | mobius-qa/retrieval-eval-studio/app/main.py:1269-1273 | non-dict gold gives the empty set, and no member of the set is blank |
| Hier.HierGoldSetVsParentSet | mobius-qa/retrieval-eval-studio/app/main.py:1273 | unlike the BM25 parent set, a falsy element such as 0 still counts and a blank string does not |
| Hier.HierBestRankSpec | mobius-qa/retrieval-eval-studio/app/main.py:1304-1308 | the best rank is the first neighbour whose id is in the gold set, none when no neighbour is |
| Hier.SnippetSpec | mobius-qa/retrieval-eval-studio/app/main.py:1333 | a snippet has at most 220 characters, no line break and no surrounding white space |
| Hier.HierRowsSpec | mobius-qa/retrieval-eval-studio/app/main.py:1328-1346 | rows have contiguous ranks and match exactly the neighbours whose id is a gold parent |
| Hier.HierDecision | mobius-qa/retrieval-eval-studio/app/main.py:1309-1312 | the vector path answers iff the first neighbour's similarity exists and reaches the threshold; a false positive is an answer not expected in the manual |
| Hier.EvalHierQuestion | mobius-qa/retrieval-eval-studio/app/main.py:1265-1346 | the per-question body computes that question's verdict and rows |
| Hier.HierEvalAt | mobius-qa/retrieval-eval-studio/app/main.py:1264-1326 | one verdict per question, the i-th for the i-th question |
| Hier.RunHierEval | mobius-qa/retrieval-eval-studio/app/main.py:1240-1347 | a missing database URL fails; otherwise every question is evaluated in order |
| Hier.HitFlags | mobius-qa/retrieval-eval-studio/app/main.py:1350-1353 | the flags are absent exactly when there is no rank |
| Hier.HitFlagsMonotone | mobius-qa/retrieval-eval-studio/app/main.py:1350-1353 | with a rank, at_1 ⇒ at_3 ⇒ at_5 ⇒ at_10, at_1 holds iff rank ≤ 1 and at_10 iff rank ≤ 10 |
| RunSummary.QTableSpec | mobius-qa/retrieval-eval-studio/app/main.py:1416-1418 | the `{id: q}` tables have distinct ids, exactly the ids of the input, and no more entries than the input |
| RunSummary.QTableLastWins | mobius-qa/retrieval-eval-studio/app/main.py:1416-1418 | each entry is the last input with its id |
| RunSummary.LastWithLaterWins | mobius-qa/retrieval-eval-studio/app/main.py:1416-1418 | a later entry with the same key hides an earlier one |
| RunSummary.SummaryParentIds | mobius-qa/retrieval-eval-studio/app/main.py:1430-1434 | no stored gold parent id is blank |
| RunSummary.MetricRowsSpec | mobius-qa/retrieval-eval-studio/app/main.py:1427-1486 | one metric row per question id, all tagged with the run; the hit flags are absent exactly when that method found no gold rank, and an empty parent list is stored as absent |
| RunSummary.ExpectFallsBackToHier | mobius-qa/retrieval-eval-studio/app/main.py:1467 | a question the BM25 pass did not see takes `expect_in_manual` from the vector pass |
| RunSummary.StoredRowsSpec | mobius-qa/retrieval-eval-studio/app/main.py:1488-1542 | BM25 rows come first, then vector rows; every row carries the run id and a snippet of at most 240 characters |
| RunSummary.TallyBounds | mobius-qa/retrieval-eval-studio/app/main.py:1557-1592 | hit@1 ≤ hit@3 ≤ hit@5 ≤ hit@10 ≤ questions with gold ≤ questions, and false positives are counted only among out-of-manual questions |
| RunSummary.HitsNeedParentIds | mobius-qa/retrieval-eval-studio/app/main.py:1582-1592 | a question whose gold is only a substring or a pattern adds nothing to any hit counter, even when BM25 found a gold rank for it |
| RunSummary.CountSummary | mobius-qa/retrieval-eval-studio/app/main.py:1564-1592 | the summary loop computes the tally of the question table |
| RunSummary.Rate | mobius-qa/retrieval-eval-studio/app/main.py:1553-1554 | with num ≤ den the rate lies in [0, 1] |
| RunSummary.RateMonotone | mobius-qa/retrieval-eval-studio/app/main.py:1553-1554 | more hits never give a lower rate, and no questions with gold give rate 0 |
| RunSummary.SummarySpec | mobius-qa/retrieval-eval-studio/app/main.py:1594-1615 | every rate lies in [0, 1] and grows with the cut-off; the with-gold and out-of-manual counts never exceed the total, and false positives never exceed the out-of-manual count |
| RunStore.ParseSettings | mobius-qa/retrieval-eval-studio/app/main.py:1625-1637 | parsed settings carry the spec's authority and its cleaned document ids (the fallbacks are stated by SettingsDefaults and SettingsNeedScope) |
| RunStore.SettingsDefaults | mobius-qa/retrieval-eval-studio/app/main.py:1631-1634 | missing or falsy settings take 10 / 0.65 / 0.88, so an explicit 0 also becomes the default |
| RunStore.SettingsNeedScope | mobius-qa/retrieval-eval-studio/app/main.py:1625-1630 | settings that parse always name a scope; a spec without one fails with the scope error |
| RunStore.CleanIds | mobius-qa/retrieval-eval-studio/app/main.py:1626-1628 | there are no more ids than raw values, and none is empty |
| RunStore.TruncReal | mobius-qa/retrieval-eval-studio/app/main.py:1631 | `int()` of a float truncates toward zero |
| RunStore.Limited | mobius-qa/retrieval-eval-studio/app/main.py:1639 | a limit keeps the first max(0, limit) questions |
| RunStore.EvaluateFailsEarly | mobius-qa/retrieval-eval-studio/app/main.py:1629-1641 | a run without a scope, or with no questions after the limit, fails before any evaluation |
| RunStore.WithStatusSpec | mobius-qa/retrieval-eval-studio/app/main.py:1390-1404 | marking a run as running twice keeps the first start time; finishing always stamps the end time |
| RunStore.FinishedSpec | mobius-qa/retrieval-eval-studio/app/main.py:1622-1675 | a queued run always ends completed or failed: completed exactly when the evaluation succeeded (with its report), failed otherwise (with the error), either way with start and end times |
| RunStore.RowsWhereOther | mobius-qa/retrieval-eval-studio/app/main.py:1424-1425 | the rows of the other runs are exactly the rows without this run id |
| RunStore.Replacement | mobius-qa/retrieval-eval-studio/app/main.py:1424-1542 | after replacing a run's rows that run has exactly the new rows, and every other run has exactly the rows it had |
| RunStore.BuildMetricRows | mobius-qa/retrieval-eval-studio/app/main.py:1427-1486 | the insert loop produces one metric row per question id, in table order |
| RunStore.Store.SetRunStatus | mobius-qa/retrieval-eval-studio/app/main.py:1390-1404 | the run gets the new status and timestamps; an unknown run changes nothing |
| RunStore.Store.InsertRunOutputs | mobius-qa/retrieval-eval-studio/app/main.py:1407-1615 | the run's metric and retrieval rows are replaced, other runs' rows are untouched, and the summary of the question table is returned |
| RunStore.Store.RunEvalBackground | mobius-qa/retrieval-eval-studio/app/main.py:1622-1675 | the run is marked running, then either its rows are stored and it completes with its report, or it fails with the error text and every row stays as it was |
| RunStore.Store.StartRun | mobius-qa/retrieval-eval-studio/app/main.py:1678-1708 | a suite id that is not a UUID gives 400 and an unknown suite 404; otherwise the override is merged over the stored spec, a queued run is inserted, and the suite keeps the merged spec |
| RunStore.MergeOverride | mobius-qa/retrieval-eval-studio/app/main.py:1690-1692 | an override key wins over the stored spec, and other stored keys are kept |
| CliBm25.CliMaxRaws | mobius-qa/retrieval-eval/bm25_eval.py:393-399 | one maximum raw score per question |
| CliBm25.GlobalParamsIsFit | mobius-qa/retrieval-eval/bm25_eval.py:421-422 | the global fit never has a zero slope, so the `or 1.0` fallback never fires |
| CliBm25.CliVerdictSpec | mobius-qa/retrieval-eval/bm25_eval.py:412-440 | the decision looks only at the top normalised score; the best gold rank is the first matching rank among the kept sentences, and with a non-negative top_k it never exceeds top_k |
| CliBm25.CliRowsSpec | mobius-qa/retrieval-eval/bm25_eval.py:461-483 | candidate rows carry ranks 1..n, the sentence's parent and the matcher's verdict |
| CliBm25.EvalQuestions | mobius-qa/retrieval-eval/bm25_eval.py:406-483 | the question loop produces every question's verdict and rows, in order |
| CliBm25.FpFnDisjoint | mobius-qa/retrieval-eval/bm25_eval.py:516-522 | a question is never both a false positive and a false negative, so the two counts add up to at most the total |
| CliBm25.RecallOrdered | mobius-qa/retrieval-eval/bm25_eval.py:528-535 | Recall@1 ≤ Recall@5, both in [0, 1] |
| CliBm25.RecallAtCutIsOne | mobius-qa/retrieval-eval/bm25_eval.py:528-535 | when no gold rank exceeds the cut-off, recall at that cut-off is 1 |
| CliBm25.RecallAtTopKIsOne | mobius-qa/retrieval-eval/bm25_eval.py:535 | for the CLI's own verdicts with a non-negative top_k, Recall@top_k is exactly 1 whenever some question matched |
| QuestionGen.FindFromFirst | mobius-qa/retrieval-eval-studio/app/main.py:1035-1040 | when the pattern occurs at or after the start, the search finds an occurrence no later than it (the first one) |
| QuestionGen.GroupHasNoFence | mobius-qa/retrieval-eval-studio/app/main.py:1035-1040 | the lazy group of either fence search holds no fence: it stops at the first one |
| QuestionGen.FencedLines | mobius-qa/retrieval-eval-studio/app/main.py:1043-1062 | the lines taken from an unclosed fence hold no fence line; lines are split as `splitlines()` splits them (Text.LinesCrLf) |
| QuestionGen.RawYamlPassesThrough | mobius-qa/retrieval-eval-studio/app/main.py:1032-1063 | a reply without any fence comes back stripped |
| QuestionGen.YamlBlockContent | mobius-qa/retrieval-eval-studio/app/main.py:1035-1037 | a closed yaml block yields its stripped content, which holds no fence, so extracting again changes nothing |
| QuestionGen.EvidenceOrder | mobius-qa/retrieval-eval-studio/app/main.py:1124-1129 | the sort key order (labelled first, then longer first) is total and transitive |
| QuestionGen.Usable | mobius-qa/retrieval-eval-studio/app/main.py:1105-1118 | every usable row belongs to the document and passes the text filter (non-blank, at least 200 stripped characters, no dot leader in the first 220) |
| QuestionGen.ShortenSpec | mobius-qa/retrieval-eval-studio/app/main.py:1134-1140 | shortened text never exceeds 1201 characters, and text of at most 1200 characters is only stripped |
| QuestionGen.CleanDocIds | mobius-qa/retrieval-eval-studio/app/main.py:1077 | no cleaned id is empty |
| QuestionGen.DocPickSpec | mobius-qa/retrieval-eval-studio/app/main.py:1121-1130 | a document's pick is usable text of that document, best first, within the per-document cap |
| QuestionGen.PickedSound | mobius-qa/retrieval-eval-studio/app/main.py:1112-1130 | every picked row is a usable paragraph of a requested document |
| QuestionGen.PickedPerDoc | mobius-qa/retrieval-eval-studio/app/main.py:1121-1130 | with distinct ids no document contributes more than max(0, max_per_doc) rows, and an unrequested document contributes none |
| QuestionGen.EvidenceSpec | mobius-qa/retrieval-eval-studio/app/main.py:1066-1141 | at most max_total candidates when that is not negative, each a usable paragraph of a requested document with its text shortened |
| QuestionImport.Label | mobius-qa/retrieval-eval-studio/app/main.py:492-493 | a label, when present, is non-empty and has no upper-case letter |
| QuestionImport.NormalizeSpec | mobius-qa/retrieval-eval-studio/app/main.py:486-494 | an entry is kept iff it is a mapping with a non-blank question; the question is stripped, an entry without an id gets `Q` and its 1-based position, and missing gold becomes empty gold |
| QuestionImport.Accepted | mobius-qa/retrieval-eval-studio/app/main.py:485-494 | there are no more kept entries than entries |
| QuestionImport.UpsertedKeys | mobius-qa/retrieval-eval-studio/app/main.py:499-511 | after an upsert the suite holds its old ids and the new ones |
| QuestionImport.UpsertedKeeps | mobius-qa/retrieval-eval-studio/app/main.py:499-511 | keys of other suites, and ids the rows do not mention, keep their rows |
| QuestionImport.UpsertedLastWins | mobius-qa/retrieval-eval-studio/app/main.py:499-511 | each id carries the last row written for it |
| QuestionImport.CountNewIsGrowth | mobius-qa/retrieval-eval-studio/app/main.py:497-515 | the number counted as inserted is exactly how much the suite grew |
| QuestionImport.ReimportChangesNothing | mobius-qa/retrieval-eval-studio/app/main.py:485-515 | importing the same rows again inserts nothing and leaves the table as it was |
| QuestionImport.NoNewAfterImport | mobius-qa/retrieval-eval-studio/app/main.py:497-515 | rows whose ids the suite already holds are never counted as new |
| QuestionImport.ImportEntries | mobius-qa/retrieval-eval-studio/app/main.py:463-476 | entries are returned only for a valid suite id, and then the list is not empty (each failing check gives its 400 in ImportYaml) |
| QuestionImport.BucketCountsAccepted | mobius-qa/retrieval-eval-studio/app/main.py:543-550 | accepted counts lie in range, but they add up to n_total only when canonical and out-of-manual leave room: the `n_factual < 0` test can never fire |
| QuestionImport.BucketCountsOverAllocate | mobius-qa/retrieval-eval-studio/app/main.py:543-550 | with `n_total: 1` and the other counts defaulted, 2 + 2 + 0 questions are requested out of 1 |
| QuestionImport.BucketCountsCheckedSum | mobius-qa/retrieval-eval-studio/app/main.py:543-550 | with the check made live, accepted counts are non-negative and add up to n_total, and the result agrees with the code whenever they fit |
| QuestionImport.DefaultsFit | mobius-qa/retrieval-eval-studio/app/main.py:543-546 | with every count defaulted the buckets fit exactly when at least 4 questions are asked for |
| QuestionImport.PlanSpec | mobius-qa/retrieval-eval-studio/app/main.py:537-592 | a plan exists only for a valid id, a known suite with a scope, counts that fit and a chat database; its documents are never blank |
| QuestionImport.Generate | mobius-qa/retrieval-eval-studio/app/main.py:588-655 | the evidence must not be empty, and the reply must hold YAML with a `questions` list |
| QuestionImport.QuestionBank.Upsert | mobius-qa/retrieval-eval-studio/app/main.py:485-517 | every kept entry is written under (suite, id), counted as inserted when the key was new and as updated otherwise |
| QuestionImport.QuestionBank.ImportYaml | mobius-qa/retrieval-eval-studio/app/main.py:460-525 | the request checks, then the upsert, then the number of questions the suite holds; a refused request changes nothing |
| QuestionImport.QuestionBank.AutoGenerate | mobius-qa/retrieval-eval-studio/app/main.py:528-659 | generate, then import the YAML exactly as the import endpoint would; the bank changes only through that import |
| Compare.AsListSpec | mobius-qa/retrieval-eval/compare_bm25_vs_hier.py:44-51 | None gives [], a string s gives [s] (even when empty), another scalar gives its text, and a list gives exactly the texts of its truthy items |
| Compare.ListTextsSpec | mobius-qa/retrieval-eval/compare_bm25_vs_hier.py:50 | a list contributes exactly the `str()` of its truthy items |
| Compare.HitRankOf | mobius-qa/retrieval-eval/compare_bm25_vs_hier.py:54-59 | a rank, when found, lies in 1..len(ids) |
| Compare.HitRankSpec | mobius-qa/retrieval-eval/compare_bm25_vs_hier.py:54-59 | the rank found is the position of a gold id with no gold id before it; none is found iff no id is gold |
| Compare.HitRank | mobius-qa/retrieval-eval/compare_bm25_vs_hier.py:54-59 | the loop that returns at the first gold id computes that rank |
| Compare.PipesEscaped | mobius-qa/retrieval-eval/compare_bm25_vs_hier.py:63 | after escaping, every pipe is preceded by a backslash |
| Compare.MdEscapeSpec | mobius-qa/retrieval-eval/compare_bm25_vs_hier.py:62-63 | the escaped text holds no newline, and every pipe in it is preceded by a backslash |
| Compare.GroupSpec | mobius-qa/retrieval-eval/compare_bm25_vs_hier.py:93-105 | the grouped views keep only this question's rows ranked within k (vector rows only in `hier_only` mode when the column exists), ordered by rank |
| Compare.ExpectationSpec | mobius-qa/retrieval-eval/compare_bm25_vs_hier.py:128-130 | an explicit `expect_in_manual` wins; otherwise the expectation is "bucket is not out_of_manual"; a truthy non-mapping gold has no expectation |
| Compare.SideSpec | mobius-qa/retrieval-eval/compare_bm25_vs_hier.py:138-159 | a rank exists only for a non-empty gold set and is the first retrieved gold id; the hit flags are absent exactly when the rank is; a side answers when its own score reaches its own threshold, and is a false positive exactly when it answers an out-of-manual question |
| Compare.RowSpec | mobius-qa/retrieval-eval/compare_bm25_vs_hier.py:123-181 | a question's row carries its own id, intent, bucket and expectation; each side's rank points at a gold id among that side's rows for this question, and each side decides on its own score and threshold |
| Compare.QByIdSpec | mobius-qa/retrieval-eval/compare_bm25_vs_hier.py:83 | the id table holds exactly the truthy ids, each mapped to a question carrying that id |
| Compare.SortedIdsSpec | mobius-qa/retrieval-eval/compare_bm25_vs_hier.py:123 | the report visits every id of the table exactly once, in string order |
| Compare.RowsOfSpec | mobius-qa/retrieval-eval/compare_bm25_vs_hier.py:123-181 | rows come out one per id, each that id's own row, and building fails exactly when some gold is a truthy non-mapping |
| Compare.BuildRows | mobius-qa/retrieval-eval/compare_bm25_vs_hier.py:123-181 | the report loop appends one row per question and stops at a gold that is not a mapping |
| Compare.ReportSpec | mobius-qa/retrieval-eval/compare_bm25_vs_hier.py:78-181 | an empty, missing or non-list `questions` stops the report with its message; questions none of which has a truthy id stop it with the KeyError of line 240; otherwise there is one row per distinct question id, each row that question's own, in strictly increasing id order |
| Compare.RateBounds | mobius-qa/retrieval-eval/compare_bm25_vs_hier.py:236-237 | a rate of a count within its denominator lies in [0, 1] |
| Compare.StatsSpec | mobius-qa/retrieval-eval/compare_bm25_vs_hier.py:248-256 | over the questions with gold: hit@1 ≤ hit@hit_k when hit_k ≥ 1, hits at hit_k plus misses never exceed the questions with gold, and both rates lie in [0, 1] (0 without gold) |
| Compare.HitOrMissed | mobius-qa/retrieval-eval/compare_bm25_vs_hier.py:249-252 | a question with gold is counted as a hit at hit_k or as missed, never both |
| Compare.SummarySpec | mobius-qa/retrieval-eval/compare_bm25_vs_hier.py:239-266 | questions split into with and without gold, and each method's false positives are among the out-of-manual questions |
| Compare.FalsePositivesAreOutOfManual | mobius-qa/retrieval-eval/compare_bm25_vs_hier.py:259-261 | for rows built by the report the out-of-manual mask removes nothing: every false positive is already out of manual |
| Compare.NoParentsNoGold | mobius-qa/retrieval-eval/compare_bm25_vs_hier.py:239-242 | a question without gold parent ids never enters the Hit@k denominator |
| RetrievalEval.QuestionKept | mobius-qa/retrieval-eval/retrieval_eval.py:41-59 | an entry is kept exactly when it is a mapping whose question is not blank, and the kept question is the trimmed, non-empty text |
| RetrievalEval.QuestionLabelsLower | mobius-qa/retrieval-eval/retrieval_eval.py:50-57 | intent and bucket of a kept question carry no upper-case letters |
| RetrievalEval.QuestionDefaults | mobius-qa/retrieval-eval/retrieval_eval.py:50-57 | a missing intent becomes "unknown" and a missing id becomes the 1-based position id |
| RetrievalEval.KeptQuestionsSpec | mobius-qa/retrieval-eval/retrieval_eval.py:41-59 | the loaded list has one question per kept entry, and each loaded question comes from some entry of the file |
| RetrievalEval.LoadQuestions | mobius-qa/retrieval-eval/retrieval_eval.py:41-59 | the loop computes the specification function of the loader (not-a-list error, else the kept questions) |
| RetrievalEval.RequireSpec | mobius-qa/retrieval-eval/retrieval_eval.py:62-66 | succeeds exactly when the value is present and not blank, returning it trimmed; otherwise fails with the "Missing required config/env" message naming the key |
| RetrievalEval.RunSettingsSpec | mobius-qa/retrieval-eval/retrieval_eval.py:107-112 | top-k always lies in [1, 100] and the question limit is at least 1; in-range values from env or config are kept, and with nothing set the defaults apply |
| RetrievalEval.AllowItems | mobius-qa/retrieval-eval/retrieval_eval.py:121-147 | the cleaned allow-list keeps only non-empty trimmed items and never grows |
| RetrievalEval.NamedModesSpec | mobius-qa/retrieval-eval/retrieval_eval.py:121-147 | every loaded mode is well formed, and there is exactly one per entry that names a mode |
| RetrievalEval.ModesSpec | mobius-qa/retrieval-eval/retrieval_eval.py:121-147 | a non-list field is the only error; a success is a non-empty list of well-formed modes; with no named entry the default modes are used |
| RetrievalEval.LoadModes | mobius-qa/retrieval-eval/retrieval_eval.py:121-147 | the loop computes the specification function of the mode loader |
| RetrievalEval.NamespacesCount | mobius-qa/retrieval-eval/retrieval_eval.py:168-182 | one namespace per non-empty filter field, plus one for a non-empty source-type allow-list |
| RetrievalEval.NamespacesOrdered | mobius-qa/retrieval-eval/retrieval_eval.py:168-182 | namespaces come in the fixed field order and each carries at least one allow token |
| RetrievalEval.NamespacesAuthority | mobius-qa/retrieval-eval/retrieval_eval.py:168-182 | the authority-level namespace is present exactly when the authority filter is set |
| RetrievalEval.Snippet | mobius-qa/retrieval-eval/retrieval_eval.py:466-467 | no snippet exactly when the text is blank; otherwise a non-empty text of at most 240 characters plus the ellipsis, which ends it when it was cut |
| RetrievalEval.NeighborRowsSpec | mobius-qa/retrieval-eval/retrieval_eval.py:449-487 | row i carries rank i+1, the neighbour's id, no error, the mode's name, and the similarity of its distance, which lies in [0, 1] |
| RetrievalEval.NoAuthorityNoQuery | mobius-qa/retrieval-eval/retrieval_eval.py:358-363 | without an authority-level filter the run fails before any embedding or search, whatever the services answer |
| RetrievalEval.EmbedFailureOneRow | mobius-qa/retrieval-eval/retrieval_eval.py:393-416 | a question whose embedding fails yields exactly one "__embed_error__" row with an error and no rank or neighbour |
| RetrievalEval.ModeRowsSpec | mobius-qa/retrieval-eval/retrieval_eval.py:418-487 | a failed search yields one error row for that mode; a successful one yields one row per neighbour, in order |
| RetrievalEval.RunAll | mobius-qa/retrieval-eval/retrieval_eval.py:385-491 | the loop over questions produces the rows of the specification function, question by question |
| RetrievalEval.RunModes | mobius-qa/retrieval-eval/retrieval_eval.py:418-491 | the loop over modes produces the rows of the specification function, mode by mode |
| AutoLabel.KeepUnits | mobius-qa/retrieval-eval/auto_label_questions.py:188-191 | the loop keeps exactly the sentence units the specification function keeps |
| AutoLabel.KeptUnitsSpec | mobius-qa/retrieval-eval/auto_label_questions.py:188-191 | every kept sentence belongs to its paragraph, sits at its own index and is at least 30 characters long, and every unit of that length is kept |
| AutoLabel.BuildCorpus | mobius-qa/retrieval-eval/auto_label_questions.py:182-191 | the loop builds the sentence corpus and the paragraph-text table of the specification functions |
| AutoLabel.SentCorpusMembers | mobius-qa/retrieval-eval/auto_label_questions.py:184-191 | a sentence is in the corpus exactly when it is a kept unit of some paragraph |
| AutoLabel.SentCorpusSound | mobius-qa/retrieval-eval/auto_label_questions.py:188-191 | every corpus sentence has at least 30 characters and is a unit of some paragraph |
| AutoLabel.SentCorpusComplete | mobius-qa/retrieval-eval/auto_label_questions.py:188-191 | every unit of at least 30 characters of every paragraph is in the corpus |
| AutoLabel.ParaTextsKeys | mobius-qa/retrieval-eval/auto_label_questions.py:183-187 | the text table has a key exactly for each paragraph id |
| AutoLabel.ParaTextsLastWins | mobius-qa/retrieval-eval/auto_label_questions.py:183-187 | for a repeated paragraph id the table holds the text of the last paragraph with that id |
| AutoLabel.StripUrlTrail | mobius-qa/retrieval-eval/auto_label_questions.py:124 | the result is the longest prefix that does not end in one of ") . , ;", and only such characters were removed |
| AutoLabel.KeepDaysSpec | mobius-qa/retrieval-eval/auto_label_questions.py:132-142 | at most two day phrases, the first found always kept whitespace-collapsed, no two equal ignoring case, each taken from the matches |
| AutoLabel.KeepDaysSaturated | mobius-qa/retrieval-eval/auto_label_questions.py:140-141 | once two phrases are kept, later matches change nothing |
| AutoLabel.DedupDays | mobius-qa/retrieval-eval/auto_label_questions.py:135-141 | the loop computes the specification function of the day de-duplication |
| AutoLabel.EscapeRoundTrip | mobius-qa/retrieval-eval/auto_label_questions.py:149 | unescaping the escaped phrase gives the phrase back |
| AutoLabel.AnswerHintsSpec | mobius-qa/retrieval-eval/auto_label_questions.py:108-150 | empty text gives no hint; otherwise the first phone, else the first URL without its trailing punctuation, else the first email, else the de-duplicated days, else a case-insensitive escaped regex of the first ten tokens when there are at least eight |
| AutoLabel.ExtractAnswerHints | mobius-qa/retrieval-eval/auto_label_questions.py:108-150 | the method computes the specification function of the hint extraction |
| AutoLabel.AggOf | mobius-qa/retrieval-eval/auto_label_questions.py:209-214 | the aggregate has a key exactly for each parent among the top sentences |
| AutoLabel.AggIsSum | mobius-qa/retrieval-eval/auto_label_questions.py:209-214 | the aggregate of a parent is the sum of the scores of its top sentences |
| AutoLabel.SumForAbsent | mobius-qa/retrieval-eval/auto_label_questions.py:209-214 | a parent with no top sentence sums to zero |
| AutoLabel.ArgMaxFirstSpec | mobius-qa/retrieval-eval/auto_label_questions.py:218 | the chosen key has the largest value, and every key before it in insertion order has a strictly smaller one |
| AutoLabel.BestParentSpec | mobius-qa/retrieval-eval/auto_label_questions.py:218 | no best parent exactly when there is no top sentence; otherwise the best parent is a top sentence's parent with the largest sum, strictly larger than every parent seen before it |
| AutoLabel.BestParentIsMax | mobius-qa/retrieval-eval/auto_label_questions.py:218 | no parent's summed score exceeds the best parent's |
| AutoLabel.BestParentFirstSeen | mobius-qa/retrieval-eval/auto_label_questions.py:218 | a parent seen before the best one has a strictly smaller sum (ties go to the first seen) |
| AutoLabel.Aggregate | mobius-qa/retrieval-eval/auto_label_questions.py:209-217 | the loop computes the aggregate map and the first-seen order of the parents |
| AutoLabel.MaxKey | mobius-qa/retrieval-eval/auto_label_questions.py:218 | the loop returns the first key of largest value |
| AutoLabel.PickBest | mobius-qa/retrieval-eval/auto_label_questions.py:206-218 | the loop picks the best sentence and parent of the specification function |
| AutoLabel.PickForSpec | mobius-qa/retrieval-eval/auto_label_questions.py:204-216 | there is no best sentence exactly when the top-N slice is empty (Python slice semantics, negative N included); otherwise it is the highest-scoring sentence |
| AutoLabel.PickForParent | mobius-qa/retrieval-eval/auto_label_questions.py:208-218 | a best parent exists exactly when a best sentence does, and its summed score is at least that of every top sentence's parent |
| AutoLabel.CruxTopSpec | mobius-qa/retrieval-eval/auto_label_questions.py:233-241 | at most three distinct candidate positions, each with larger overlap than every candidate left out, ties resolved by earlier position (stable sort) |
| AutoLabel.CruxOfSpec | mobius-qa/retrieval-eval/auto_label_questions.py:241 | at most three crux sentences, exactly the chosen candidates of at least 25 characters |
| AutoLabel.SelectCrux | mobius-qa/retrieval-eval/auto_label_questions.py:233-241 | the loop computes the crux sentences of the specification function |
| AutoLabel.ExpectationFromBucket | mobius-qa/retrieval-eval/auto_label_questions.py:199-221 | expect_in_manual is always written, true exactly when the bucket is not out_of_manual |
| AutoLabel.ParentAlwaysWritten | mobius-qa/retrieval-eval/auto_label_questions.py:222-223 | with a best parent, parent ids become exactly that parent; without one the field keeps its old value |
| AutoLabel.OutOfManualAbstains | mobius-qa/retrieval-eval/auto_label_questions.py:225-226 | an out-of-manual question gets no answer, regex or crux hint (those fields keep their old values) |
| AutoLabel.FactualGetsOneHint | mobius-qa/retrieval-eval/auto_label_questions.py:227-229 | a factual in-manual question gets no crux and at most one of answer_contains or answer_regex, taken from the best sentence's hints |
| AutoLabel.CanonicalGetsCrux | mobius-qa/retrieval-eval/auto_label_questions.py:230-243 | a non-factual in-manual question gets no answer hint; crux_contains is set exactly when some crux sentence was found |
| AutoLabel.OtherKeysKept | mobius-qa/retrieval-eval/auto_label_questions.py:220-245 | every other gold field keeps its value |
| AutoLabel.LabelOne | mobius-qa/retrieval-eval/auto_label_questions.py:198-245 | the method computes the labelled question of the specification function |
| AutoLabel.LabelEntriesSpec | mobius-qa/retrieval-eval/auto_label_questions.py:198-247 | the run fails exactly when some entry is not a mapping; otherwise each question keeps its place and text and gets the gold of its own pick |
| AutoLabel.LabelAll | mobius-qa/retrieval-eval/auto_label_questions.py:198-247 | the loop computes the labelled entries of the specification function |
| AutoLabel.DbUrl | mobius-qa/retrieval-eval/auto_label_questions.py:167 | the RAG database URL when it is set; no URL exactly when both are empty; a chosen URL is never empty |
| AutoLabel.LabelRunSpec | mobius-qa/retrieval-eval/auto_label_questions.py:161-247 | exits on a missing authority, then a missing database URL, then a missing or empty question list; a labelled run had all three and paragraphs, and keeps one question per entry in order |
| ManualQuestions.ExtractAnswerSpec | mobius-qa/retrieval-eval/generate_questions_from_manual.py:104-135 | the kind is phone, url, email or days exactly when the earlier kinds found nothing and this one found a match; those kinds carry exactly one answer, and "other" carries a regex exactly when the sentence has at least eight tokens |
| ManualQuestions.ExtractAgreesWithHints | mobius-qa/retrieval-eval/generate_questions_from_manual.py:104-135 | on a non-empty sentence the answer agrees with the auto-labeller's hints, cut to the first day phrase |
| ManualQuestions.DotRun | mobius-qa/retrieval-eval/generate_questions_from_manual.py:147 | the length of the leading run of dots |
| ManualQuestions.DropDotLeadersSpec | mobius-qa/retrieval-eval/generate_questions_from_manual.py:147 | after the rewrite no run of three or more dots is left, and a first character that is not a dot is kept |
| ManualQuestions.StripEdgeLeft | mobius-qa/retrieval-eval/generate_questions_from_manual.py:148 | removes exactly the leading run of the characters " -–—:;,." |
| ManualQuestions.StripEdgeRight | mobius-qa/retrieval-eval/generate_questions_from_manual.py:148 | removes exactly the trailing run of the characters " -–—:;,." |
| ManualQuestions.RsplitHead | mobius-qa/retrieval-eval/generate_questions_from_manual.py:151 | the text before the last space, or the whole text when it has none |
| ManualQuestions.ClipSpec | mobius-qa/retrieval-eval/generate_questions_from_manual.py:150-151 | text within the limit is unchanged; longer text is cut at the last space inside the limit and ends in the ellipsis |
| ManualQuestions.NoDotLeaderClip | mobius-qa/retrieval-eval/generate_questions_from_manual.py:147-151 | clipping a context never creates a dot leader |
| ManualQuestions.ContextWithoutSpec | mobius-qa/retrieval-eval/generate_questions_from_manual.py:143-152 | the context has at most 160 characters plus the ellipsis, no dot leader, and does not start with an edge character |
| ManualQuestions.MakeQuestionBlank | mobius-qa/retrieval-eval/generate_questions_from_manual.py:139-141 | no question exactly when the collapsed sentence is empty |
| ManualQuestions.MakeQuestionTemplated | mobius-qa/retrieval-eval/generate_questions_from_manual.py:155-166 | a concrete answer gives the kind's template around a bounded context that has no dot leader |
| ManualQuestions.MakeQuestionDefault | mobius-qa/retrieval-eval/generate_questions_from_manual.py:168-172 | otherwise the "According to the Sunshine provider manual" lead around a lead of at most 140 characters plus the ellipsis, and the whole sentence when it fits |
| ManualQuestions.CanonicalOfSpec | mobius-qa/retrieval-eval/generate_questions_from_manual.py:200-228 | a canonical question comes exactly from a non-TOC paragraph of at least 600 characters with a section or chapter path and some crux, and carries in-manual gold with the paragraph id and one to three crux sentences of at least 35 characters from its first four |
| ManualQuestions.EligibleMembers | mobius-qa/retrieval-eval/generate_questions_from_manual.py:200-228 | a question is eligible exactly when some paragraph yields it |
| ManualQuestions.EligiblePrefix | mobius-qa/retrieval-eval/generate_questions_from_manual.py:229-230 | the eligible questions of a prefix of paragraphs are a prefix of all eligible questions |
| ManualQuestions.SelectCanonical | mobius-qa/retrieval-eval/generate_questions_from_manual.py:199-230 | the loop computes the canonical questions of the specification function, stopping once the cap is reached |
| ManualQuestions.UnitCandsMembers | mobius-qa/retrieval-eval/generate_questions_from_manual.py:239-270 | a candidate comes from a sentence of 40 to 420 characters of its own paragraph, with a concrete answer or a regex anchor |
| ManualQuestions.HarvestSound | mobius-qa/retrieval-eval/generate_questions_from_manual.py:233-270 | every harvested candidate has a fact-sized sentence taken from a non-empty paragraph with its id |
| ManualQuestions.HarvestUnits | mobius-qa/retrieval-eval/generate_questions_from_manual.py:239-270 | the loop over one paragraph's sentences computes its candidates |
| ManualQuestions.HarvestCands | mobius-qa/retrieval-eval/generate_questions_from_manual.py:233-270 | the loop over paragraphs computes the harvested candidates |
| ManualQuestions.SortCandsSpec | mobius-qa/retrieval-eval/generate_questions_from_manual.py:276-277 | the sorted candidates are a permutation, ordered by kind rank and then sentence length |
| ManualQuestions.FactualKey | mobius-qa/retrieval-eval/generate_questions_from_manual.py:279-283 | a factual question's de-duplication key is the candidate's key |
| ManualQuestions.PickSpec | mobius-qa/retrieval-eval/generate_questions_from_manual.py:273-306 | picked questions have distinct answer keys, number at most the budget (at least one), and each comes from a candidate whose question could be built |
| ManualQuestions.PickFactual | mobius-qa/retrieval-eval/generate_questions_from_manual.py:273-306 | the loop computes the picked questions of the specification function |
| ManualQuestions.ProbeQuestionsSpec | mobius-qa/retrieval-eval/generate_questions_from_manual.py:308-328 | at most seven probes, exactly n of them when 0 ≤ n ≤ 7, each out of manual with no parent or answer gold |
| ManualQuestions.GenIdInjective | mobius-qa/retrieval-eval/generate_questions_from_manual.py:333-334 | distinct positions get distinct "G" ids |
| ManualQuestions.WithIdsSpec | mobius-qa/retrieval-eval/generate_questions_from_manual.py:333-334 | numbering changes only the id, and all ids differ |
| ManualQuestions.AssignIds | mobius-qa/retrieval-eval/generate_questions_from_manual.py:333-334 | the loop computes the numbering of the specification function |
| ManualQuestions.NumberedAssembleSpec | mobius-qa/retrieval-eval/generate_questions_from_manual.py:330-334 | the numbered set has at most n questions, ids G001 upwards in order, and begins with the canonical questions |
| ManualQuestions.QuestionSetSpec | mobius-qa/retrieval-eval/generate_questions_from_manual.py:198-334 | the whole question set keeps those promises |
| ManualQuestions.BuildQuestionSet | mobius-qa/retrieval-eval/generate_questions_from_manual.py:198-334 | the method computes the question set of the specification function |
| ManualQuestions.GenerateRunSpec | mobius-qa/retrieval-eval/generate_questions_from_manual.py:184-338 | exits on a missing authority, then on a missing database URL; a generated set had both and a non-empty paragraph list, and has at most n questions when n ≥ 0 |
| LexSpec.CodeShapeSpec | mobius-qa/lexicon-maintenance/app/main.py:85 | a well-shaped tag code starts with a lower-case letter, uses only lower-case letters, digits, "_" and at most one dot |
| LexSpec.CodeJoin | mobius-qa/lexicon-maintenance/app/main.py:85 | joining two segments with a dot gives a well-shaped code whose parent is the first segment |
| LexSpec.TrailingNewlineAccepted | mobius-qa/lexicon-maintenance/app/main.py:85-99 | Python's "$" lets a code with one trailing newline through the pattern, although it is not a well-shaped code |
| LexSpec.ParentOf | mobius-qa/lexicon-maintenance/app/main.py:125 | the text before the last dot, or the whole code when it has none |
| LexSpec.LastDotAfter | mobius-qa/lexicon-maintenance/app/main.py:125 | the parent is the prefix before the last dot |
| LexSpec.ValidateTagSpec | mobius-qa/lexicon-maintenance/app/main.py:88-143 | a tag passes exactly when the code matches, a domain has no parent and no non-empty strong_phrases, aliases or refuted_words list, and a child has a parent that is not reported missing (a failed lookup does not block); a missing parent error names the code's prefix |
| LexSpec.ChildParentIsDomain | mobius-qa/lexicon-maintenance/app/main.py:124-130 | a two-segment code without a parent is refused, expecting its first segment |
| LexSpec.KnownKindsSpec | mobius-qa/lexicon-maintenance/app/main.py:167-168 | the known kinds are exactly the trimmed, lower-cased candidate types among p, d and j |
| LexSpec.PickKindSpec | mobius-qa/lexicon-maintenance/app/main.py:166-178 | the picked kind is always p, d or j: d without known kinds, the single kind when only one occurs, else d when present, else j |
| LexSpec.ParseKindCodeShape | mobius-qa/lexicon-maintenance/app/main.py:181-193 | the kind is never empty and the code is trimmed |
| LexSpec.ParseKindCodeRoundTrip | mobius-qa/lexicon-maintenance/app/main.py:181-193 | parsing "kind:code" gives back the kind and code |
| LexSpec.TextsSpec | mobius-qa/lexicon-maintenance/app/main.py:200-203 | the kept list items are exactly the non-blank texts of the list |
| LexSpec.TextsOfStrs | mobius-qa/lexicon-maintenance/app/main.py:200-203 | a list of non-blank strings is kept as it is |
| LexSpec.AddAliasSpec | mobius-qa/lexicon-maintenance/app/main.py:208-236 | a blank phrase changes nothing; other keys never change; strong adds the trimmed phrase to strong_phrases after the existing non-blank items, leaving weak_keywords alone; weak puts it in weak_keywords.any_of with a min_hits, leaving strong_phrases alone |
| LexSpec.AddAliasIdempotent | mobius-qa/lexicon-maintenance/app/main.py:208-236 | adding the same alias twice gives the same spec as adding it once |
| LexSpec.StrongIdempotent | mobius-qa/lexicon-maintenance/app/main.py:232-235 | a phrase already in strong_phrases is not appended again |
| LexSpec.WeakIdempotent | mobius-qa/lexicon-maintenance/app/main.py:218-230 | a phrase already in any_of is not appended again |
| LexSpec.NormKeyIsNormalizePhrase | mobius-qa/lexicon-maintenance/app/main.py:984-985 | the endpoint's normalisation key is the candidate store's phrase normalisation |
| LexSpec.LowerSqueeze | mobius-qa/lexicon-maintenance/app/candidate_ops.py:13-17 | lower-casing and collapsing whitespace commute |
| LexSpec.NormalizePhraseSpec | mobius-qa/lexicon-maintenance/app/candidate_ops.py:13-17 | the normal form has no whitespace runs or edge spaces and no upper case, and normalising it again changes nothing |
| LexCleanup.MergePhrases | mobius-qa/scripts/lexicon_cleanup.py:125-132 | the loop computes the de-duplicated union of the specification function |
| LexCleanup.DedupBySpec | mobius-qa/scripts/lexicon_cleanup.py:125-132 | the merged phrases are stripped, non-empty and distinct up to case; every usable input phrase is represented, and every merged phrase is the stripped form of an input phrase |
| LexCleanup.DedupTwice | mobius-qa/scripts/lexicon_cleanup.py:120-136 | a clean list unioned with itself is the list itself |
| LexCleanup.NormaliseSpecSpec | mobius-qa/scripts/lexicon_cleanup.py:120-136 | other keys are kept; when some usable phrase exists both phrases and strong_phrases become the merged list, otherwise the spec is unchanged |
| LexCleanup.NormaliseSpecIdempotent | mobius-qa/scripts/lexicon_cleanup.py:120-136 | normalising a normalised spec changes nothing |
| LexCleanup.UnseenSpec | mobius-qa/scripts/lexicon_cleanup.py:94-97 | a source phrase is copied exactly when its stripped lower-case form is not among the target's |
| LexCleanup.MergeFieldSpec | mobius-qa/scripts/lexicon_cleanup.py:91-99 | other keys are kept, the target list is a prefix of the merged list, and the appended items are exactly the source phrases whose key the target lacked |
| LexCleanup.MergeSpecsFrame | mobius-qa/scripts/lexicon_cleanup.py:87-101 | merging touches only strong_phrases and phrases |
| LexCleanup.MergeCopiesRepeats | mobius-qa/scripts/lexicon_cleanup.py:94-97 | the target's key set is not updated while copying, so a phrase repeated in the source is copied twice |
| LexTable.MergedTargetSpec | mobius-qa/lexicon-maintenance/app/main.py:630-645 | the target's strong list keeps its old entries in front, and its stripped phrases become the old ones plus every non-empty source phrase and the source code with underscores as spaces; other keys are kept |
| LexTable.MergeRowsSource | mobius-qa/lexicon-maintenance/app/main.py:657-672 | after the merge no row has the source code, exactly the source rows are gone, no row is a child of the source, and the source's former children are children of the target |
| LexTable.MergeRowsKept | mobius-qa/lexicon-maintenance/app/main.py:647-672 | no row is added; the target rows get the merged spec and every other row keeps its spec, kind, code and flag; rows of other kinds are untouched |
| LexTable.MergeRowsAt | mobius-qa/lexicon-maintenance/app/main.py:647-672 | a row survives exactly when it is not the source, and then becomes its merged version |
| LexTable.Lexicon.GetEntry | mobius-qa/scripts/lexicon_cleanup.py:39-45 | finds a row with the kind and code exactly when one exists |
| LexTable.Lexicon.BumpRevision | mobius-qa/lexicon-maintenance/app/main.py:674 | the revision grows by one and the rows stay as they were |
| LexTable.Lexicon.MergeTags | mobius-qa/lexicon-maintenance/app/main.py:589-689 | missing kind, source or target, and equal source and target, are refused with 400 and the stated messages; otherwise a missing source or target gives 404; with both present the merge fails only when some matching rows' phrases cannot be read, and otherwise merges; a merge appends the new phrases, moves the children, deletes the source and bumps the revision; nothing changes unless it merges |
| LexTable.Lexicon.MergeExisting | mobius-qa/lexicon-maintenance/app/main.py:613-685 | with both tags present and readable phrases the merge always happens: the rows become the merged rows and the revision grows by one; it fails only on unreadable phrases, changing nothing |
| LexTable.Lexicon.ApplyMerge | mobius-qa/lexicon-maintenance/app/main.py:644-685 | writes the merged target spec, re-parents, deletes the source and bumps the revision |
| LexTable.Lexicon.UpsertTag | mobius-qa/lexicon-maintenance/app/main.py:423-487 | bad kind or empty code is refused with 400; a new tag that fails the structure rules is refused with the corrected handler status (400; the source answers 500, see Findings) and changes nothing, else it is inserted under a fresh id with the derived parent; an existing tag gets the new spec and flag, keeping its parent unless one is given; success bumps the revision |
| LexTable.DefaultParentChild | mobius-qa/lexicon-maintenance/app/main.py:438-440 | a new dotted code without a parent in its spec takes the prefix before its last dot, and passes validation exactly when that parent exists |
| LexTable.Lexicon.MergeInto | mobius-qa/scripts/lexicon_cleanup.py:80-109 | skips exactly when source or target is missing; with both present it is done unless the specs cannot be merged; a done merge copies the new phrases, re-parents, deletes the source; a phrase field the merge cannot handle stops the script with the rows unchanged |
| LexTable.Lexicon.Rename | mobius-qa/scripts/lexicon_cleanup.py:63-77 | renames the rows with the old code (and sets the new parent when given), then re-parents the old code's children to the new code |
| LexTable.Lexicon.SetParent | mobius-qa/scripts/lexicon_cleanup.py:55-60 | sets the parent of every row with the kind and code |
| LexTable.OrphansFixedSpec | mobius-qa/scripts/lexicon_cleanup.py:207-225 | only parents change; an orphaned dotted code whose prefix exists gets that prefix as parent, and every orphan left has no such parent row |
| LexTable.Lexicon.FixOrphans | mobius-qa/scripts/lexicon_cleanup.py:207-225 | the loop computes the orphan fix of the specification function |
| LexTable.Lexicon.NormalisePhase | mobius-qa/scripts/lexicon_cleanup.py:316-328 | when every spec can be normalised all are and the count is the number of rows that changed; otherwise each row is either untouched or normalised |
| LexTable.NormaliseRows | mobius-qa/scripts/lexicon_cleanup.py:318-327 | the loop normalises every row when it can and counts the changed ones; each row is always untouched or normalised |
| LexTable.CountChangedIsChanged | mobius-qa/scripts/lexicon_cleanup.py:320-327 | the loop's count equals the number of rows whose spec normalisation changes |
| LexTable.NormalisedRowsIdempotent | mobius-qa/scripts/lexicon_cleanup.py:316-328 | normalising a normalised table changes no row |
| LexTable.Lexicon.RunCleanup | mobius-qa/scripts/lexicon_cleanup.py:143-352 | a dry run leaves table and revision unchanged; a real run fixes orphans, normalises every spec and bumps the revision, or stops at a spec it cannot normalise with only some rows normalised and no bump |
| LexTable.HandlerStatus | mobius-qa/lexicon-maintenance/app/main.py:423-489 | the corrected handler passes an HTTP error's own status through and turns any other failure into 500 |
| LexTable.HandlerStatusAsWritten | mobius-qa/lexicon-maintenance/app/main.py:488-489 | as written, every exception, including the validation's 400, becomes a 500 |
| LexTable.PatchValidationMasked | mobius-qa/lexicon-maintenance/app/main.py:442-489 | an invalid code like "Claims" fails validation, which as written reaches the client as 500 instead of 400 |
| CandidateOps.TypeCode | mobius-qa/lexicon-maintenance/app/candidate_ops.py:46-62 | a row's type is always p, d or j: its trimmed lower-cased type when that is one of them, `d` for NULL or anything else |
| CandidateOps.CleanIdsSpec | mobius-qa/lexicon-maintenance/app/candidate_ops.py:41 | the ids used are exactly the stripped non-blank given ids; no id is used for an empty list |
| CandidateOps.TypesByIds | mobius-qa/lexicon-maintenance/app/candidate_ops.py:34-63 | empty input gives `{}`; the result holds exactly the ids of existing rows named (stripped) in the input, each with a type among p/d/j read from its row |
| CandidateOps.Store.TypesByKeys | mobius-qa/lexicon-maintenance/app/candidate_ops.py:66-99 | one entry for each non-empty normalised key some row has, holding the type of one of the most frequent rows with that key (`DISTINCT ON ... ORDER BY occurrences DESC`) |
| CandidateOps.MostFrequentExists | mobius-qa/lexicon-maintenance/app/candidate_ops.py:84 | a non-empty set of rows has a row no other row outnumbers, so `DISTINCT ON` always has a row to keep |
| CandidateOps.LikeAnything | mobius-qa/lexicon-maintenance/app/candidate_ops.py:133 | the pattern `%` matches every text |
| CandidateOps.LikePrefix | mobius-qa/lexicon-maintenance/app/candidate_ops.py:133-139 | for a key without `%`, `_` or `\`, the pattern `key%` matches exactly the texts starting with the key |
| CandidateOps.LikeContains | mobius-qa/lexicon-maintenance/app/candidate_ops.py:133-139 | for a key without `%`, `_` or `\`, the fallback pattern `%key%` matches exactly the texts containing the key |
| CandidateOps.LikeUnderscore | mobius-qa/lexicon-maintenance/app/candidate_ops.py:133-139 | a `_` in the key is a wildcard: `%a_c%` matches `abc`, which does not contain `a_c` |
| CandidateOps.FuzzyIdsContain | mobius-qa/lexicon-maintenance/app/candidate_ops.py:134-141 | for a key without wildcards, the fallback rows are exactly those in the state whose key or trimmed lower-cased phrase contains it |
| CandidateOps.Store.ResolveIds | mobius-qa/lexicon-maintenance/app/candidate_ops.py:102-154 | an empty key gives `[]`; the exact matches in the given state when there are any (all of them, each once); only otherwise the LIKE `%key%` fallback (with `%`, `_` and `\` read as PostgreSQL does), which returns at most 50 non-empty ids, most frequent first, all matches when there are at most 50 and never skips a more frequent one |
| CandidateOps.TopFrequent | mobius-qa/lexicon-maintenance/app/candidate_ops.py:132-154 | `ORDER BY occurrences DESC LIMIT 50` then the rows without id dropped: at most 50, sorted, none left out that is more frequent than one kept |
| CandidateOps.ReviewedSpec | mobius-qa/lexicon-maintenance/app/candidate_ops.py:178-211 | a reviewed row holds the given state, a reviewer defaulting to `lexicon-ui`, notes of at most 500 characters from the start of the given ones; rejecting records the `reject` verdict and clears the proposed tag; other states keep the tag unless a non-blank one is given; the type changes only to a given p/d/j |
| CandidateOps.ReviewRowsSpec | mobius-qa/lexicon-maintenance/app/candidate_ops.py:195-211 | only the rows reached change, each of them reviewed; when no id reaches a row the table is unchanged |
| CandidateOps.Store.UpdateByIds | mobius-qa/lexicon-maintenance/app/candidate_ops.py:157-212 | reviews exactly the rows whose id is among the cleaned ids and returns how many; an empty or all-blank list changes nothing and returns 0; the catalog is untouched |
| CandidateOps.UpdateByPhraseSpec | mobius-qa/lexicon-maintenance/app/candidate_ops.py:238-264 | after an update by phrase to a state other than `proposed`, no row with that key is still proposed, every row reached holds the new state, and rows with another key or state are untouched |
| CandidateOps.Store.UpdateByPhrase | mobius-qa/lexicon-maintenance/app/candidate_ops.py:215-305 | reviews exactly the still-proposed rows whose normalised phrase equals the normalised argument and returns how many |
| CandidateOps.CatalogStateSpec | mobius-qa/lexicon-maintenance/app/candidate_ops.py:329-331 | the recorded state is one of rejected/approved/flagged/proposed: the given one stripped and lower-cased when it is one of them, `rejected` otherwise or when empty |
| CandidateOps.CatalogUpsertSpec | mobius-qa/lexicon-maintenance/app/candidate_ops.py:323-348 | after an upsert the key is present with a p/d/j type and keys of at most 300 characters, the whitelisted state and a non-empty reviewer; an existing row keeps its phrase and tag; one row per key, and no other row changes |
| CandidateOps.CatalogUpsertTwice | mobius-qa/lexicon-maintenance/app/candidate_ops.py:341-346 | upserting the same key twice leaves a single row holding the second decision |
| CandidateOps.Store.UpsertCatalog | mobius-qa/lexicon-maintenance/app/candidate_ops.py:308-350 | the catalog takes the upsert, or stays as it was when the database refuses the write (the error is swallowed); candidates are untouched |
| CandidateOps.RejectType | mobius-qa/lexicon-maintenance/app/candidate_ops.py:372-376 | the recorded type is always p/d/j, and a given valid type is used as is |
| CandidateOps.RejectReviewSpec | mobius-qa/lexicon-maintenance/app/candidate_ops.py:378-380 | a rejection reviews with the `reject` verdict and no type or tag override |
| CandidateOps.Store.RejectByIds | mobius-qa/lexicon-maintenance/app/candidate_ops.py:353-394 | `(0, "no_ids")` and no change for an empty list; otherwise the rows by id are rejected; `(0, "no_rows_updated")` and no catalog write when none changed; else the count and a `rejected` catalog row with an empty tag key |
| CandidateOps.Store.RejectByPhrase | mobius-qa/lexicon-maintenance/app/candidate_ops.py:397-438 | the proposed rows of the phrase are rejected; `(0, "no_rows_updated")` and no catalog write when none changed; else the count and a `rejected` catalog row under the stripped lower-cased phrase |
| CandidateOps.RejectedLeavesProposed | mobius-qa/lexicon-maintenance/scripts/test_candidate_ops.py:85-103 | after rejecting a phrase no row with its key is still proposed, and when some row changed one with its key is rejected |
| ReloadLexicon.GrammarOneDot | mobius-qa/lexicon-maintenance/app/scripts/reload_clean_lexicon.py:35 | a code in the grammar holds at most one dot, and holds one exactly when it is not a single segment (a `domain.tag` code) |
| ReloadLexicon.GrammarOfSegments | mobius-qa/lexicon-maintenance/app/scripts/reload_clean_lexicon.py:35 | any lowercase_snake segment and any two of them joined by a dot are codes; three segments are not |
| ReloadLexicon.TrailingNewlineMatches | mobius-qa/lexicon-maintenance/app/scripts/reload_clean_lexicon.py:35-51 | `re.match` with `$` accepts a code with one trailing newline, which is outside the two-segment grammar |
| ReloadLexicon.MakeEntry | mobius-qa/lexicon-maintenance/app/scripts/reload_clean_lexicon.py:38-80 | an entry is built exactly when the kind is j/d/p, the code matches, a dotted code has a parent and a root code has no parent, strong phrases, aliases or refuted words; the kind error comes first, then the code error; the spec always has the description and holds each optional field only when given non-empty, weak keywords as `{any_of, min_hits: 1}`; the entry is active and carries the given id |
| ReloadLexicon.ValidateAsWritten | mobius-qa/lexicon-maintenance/app/scripts/reload_clean_lexicon.py:426-435 | the loop as written passes exactly the lists with known kinds, no (kind, code) twice and every parent among the same kind's codes up to and including the entry itself; otherwise it reports a problem of some entry |
| ReloadLexicon.SelfParentAccepted | mobius-qa/lexicon-maintenance/app/scripts/reload_clean_lexicon.py:432-433 | an entry naming itself as its parent is built by `_entry` and passes the loop as written, although its parent is not defined before it |
| ReloadLexicon.ValidateEntries | mobius-qa/lexicon-maintenance/app/scripts/reload_clean_lexicon.py:426-435 | the corrected loop passes exactly the lists with known kinds, no duplicate (kind, code) and every parent defined by an earlier entry of the same kind; otherwise it reports the problem of some entry |
| ReloadLexicon.CorrectedIsStricter | mobius-qa/lexicon-maintenance/app/scripts/reload_clean_lexicon.py:426-435 | whatever the corrected loop passes, the loop as written passes too |
| ReloadLexicon.RecheckContainers | mobius-qa/lexicon-maintenance/app/scripts/reload_clean_lexicon.py:437-444 | no problem exactly when no root code's spec holds a non-empty strong_phrases, aliases or refuted_words; otherwise the problem names such an entry and its first offending field |
| ReloadLexicon.BuiltEntriesAreClean | mobius-qa/lexicon-maintenance/app/scripts/reload_clean_lexicon.py:50-59 | entries built by `_entry` always pass the container recheck and have known kinds |
| ReloadLexicon.CountsAddUp | mobius-qa/lexicon-maintenance/app/scripts/reload_clean_lexicon.py:446-451 | domains + tags = total always, and J + D + P = total when every kind is j, d or p |
| ReloadLexicon.NextRevision | mobius-qa/lexicon-maintenance/app/scripts/reload_clean_lexicon.py:498-504 | the new revision exceeds the latest meta row's when that row has an id, and is 1 when there is no such row |
| ReloadLexicon.Databases.Reload | mobius-qa/lexicon-maintenance/app/scripts/reload_clean_lexicon.py:413-529 | without a QA URL (even for a dry run) or with a validation problem it exits and writes nothing; a dry run reports the counts and writes nothing; a reload replaces the entries, leaves the latest meta row with an id and the next revision, changes no other meta row, and empties both candidate tables exactly when a RAG URL is set |
| Adjudicator.HexLower | mobius-qa/mobius-chat-qa/adjudicator.py:41 | a `\x` escape digit reads back as the value it writes |
| Adjudicator.StrRepr | mobius-qa/mobius-chat-qa/adjudicator.py:41 | `repr` of a phrase opens and closes with the quote Python picks for it |
| Adjudicator.UnescapeChar | mobius-qa/mobius-chat-qa/adjudicator.py:41 | each escape `repr` writes (`\'`, `\\`, `\t`, `\n`, `\r`, `\xhh`) reads back as the one character it stands for |
| Adjudicator.UnescapeEscaped | mobius-qa/mobius-chat-qa/adjudicator.py:41 | reading an escaped body back gives the text |
| Adjudicator.StrReprRoundTrip | mobius-qa/mobius-chat-qa/adjudicator.py:41 | the text between the quotes of `repr(s)` reads back as `s`: the phrases in the prompt are exactly the configured ones |
| Adjudicator.EscapedPrintable | mobius-qa/mobius-chat-qa/adjudicator.py:41 | no control character and no DEL reaches the prompt through a phrase, so the refrain sentence stays on one line |
| Adjudicator.EscapedPlain | mobius-qa/mobius-chat-qa/adjudicator.py:41 | a text of plain characters without the quote is written as it is |
| Adjudicator.EscapedLength | mobius-qa/mobius-chat-qa/adjudicator.py:41 | escaping never shortens a text |
| Adjudicator.EscapedLonger | mobius-qa/mobius-chat-qa/adjudicator.py:41 | a text holding the quote comes out longer, its quotes escaped |
| Adjudicator.StrReprPlain | mobius-qa/mobius-chat-qa/adjudicator.py:41 | a plain phrase is written between `'`, or between `"` when it holds `'` but no `"`; holding both, it is not written as it is |
| Adjudicator.BuildPrompt | mobius-qa/mobius-chat-qa/adjudicator.py:29-67 | `should_refrain` alone picks the refrain template; the refrain sentence is present exactly when there are refrain phrases, which it lists as Python's `str` of the list writes them; the actual message is its first 8000 characters in both templates; a missing or empty expected answer reads `(none provided)` |
| Adjudicator.FindColonYesSpec | mobius-qa/mobius-chat-qa/adjudicator.py:83 | the scanner answers true exactly when `MATCH:`, optional whitespace and `yes` occur (any case) at or after the start position |
| Adjudicator.FindSepYesSpec | mobius-qa/mobius-chat-qa/adjudicator.py:89 | the scanner answers true exactly when `match`, at least one `:` or whitespace character and `yes` occur (any case) at or after the start position |
| Adjudicator.KeptLines | mobius-qa/mobius-chat-qa/adjudicator.py:76-81 | the loop keeps the last stripped line starting with `MATCH:` and the stripped text after the last `REASON:` line, ignoring case |
| Adjudicator.ReadVerdict | mobius-qa/mobius-chat-qa/adjudicator.py:82-94 | with a `MATCH:` line the verdict is whether it contains `MATCH:\s*yes`; without one, whether the text contains `match[:\s]+yes`; a `no` and no match at all both give false |
| Adjudicator.ReasonOf | mobius-qa/mobius-chat-qa/adjudicator.py:95-98 | the reason is never empty; without a `REASON:` line it is the first 500 characters of the stripped text or `No reason provided.` |
| Adjudicator.ParseResponse | mobius-qa/mobius-chat-qa/adjudicator.py:70-99 | the parsed verdict and reason are those the last `MATCH:` and `REASON:` lines of the stripped text decide |
| Adjudicator.FormattedReplyReadsBack | mobius-qa/mobius-chat-qa/adjudicator.py:18-25 | a reply in exactly the requested `MATCH: yes/no` / `REASON: …` format is read back as the verdict and the one-line reason it states |
| Adjudicator.Decide | mobius-qa/mobius-chat-qa/adjudicator.py:129-133 | an exception from the LLM call gives a mismatch with `Adjudicator error: ` and the error as the reason; a reply (`None` read as empty) is parsed |
| Adjudicator.Adjudicate | mobius-qa/mobius-chat-qa/adjudicator.py:102-133 | the verdict is the one decided from the provider's outcome for the system text plus the prompt built from the arguments (missing refrain phrases passed as an empty list) |
| ChatBot.TypingDelay | mobius-qa/mobius-chat-qa/chat_bot.py:45-50 | no pause for a delay of zero or less; otherwise `delay·len(message)/1000` seconds, capped at 30 and never negative |
| ChatBot.TypingDelayMonotone | mobius-qa/mobius-chat-qa/chat_bot.py:49 | a longer message never types faster |
| ChatBot.FindSep | mobius-qa/mobius-chat-qa/chat_bot.py:116-117 | finds the first blank-line separator at or after a position, or reports that there is none |
| ChatBot.Frames | mobius-qa/mobius-chat-qa/chat_bot.py:116-117 | repeated `partition("\n\n")` leaves a tail no longer than the buffer |
| ChatBot.FramesClean | mobius-qa/mobius-chat-qa/chat_bot.py:116-117 | no event block and no leftover tail contains a separator |
| ChatBot.FramesJoin | mobius-qa/mobius-chat-qa/chat_bot.py:116-117 | joining the blocks and the tail with the separator gives back the buffer: framing loses no byte |
| ChatBot.FramesAppend | mobius-qa/mobius-chat-qa/chat_bot.py:115-117 | framing chunk by chunk (tail kept, new chunk appended) yields the same blocks as framing the whole stream at once |
| ChatBot.FindSepAppend | mobius-qa/mobius-chat-qa/chat_bot.py:116 | appending a chunk does not move a separator already found |
| ChatBot.SplitNl | mobius-qa/mobius-chat-qa/chat_bot.py:118 | `split("\n")` gives at least one line and no line holds a newline |
| ChatBot.SplitNlJoin | mobius-qa/mobius-chat-qa/chat_bot.py:118 | the lines joined with newlines give back the block |
| ChatBot.Payload | mobius-qa/mobius-chat-qa/chat_bot.py:119-122 | a line carries a payload exactly when its stripped text starts with `data: `; the payload is the stripped remainder |
| ChatBot.LineEventsAppend | mobius-qa/mobius-chat-qa/chat_bot.py:118-131 | the events of two runs of lines are those of the first followed by those of the second |
| ChatBot.EventsAppend | mobius-qa/mobius-chat-qa/chat_bot.py:116-131 | the events of two runs of blocks are those of the first followed by those of the second |
| ChatBot.FirstDecisive | mobius-qa/mobius-chat-qa/chat_bot.py:123-129 | the index of the first event that ends the wait (a `completed` event or a payload that is not an object), or the length when none does |
| ChatBot.FeedAllSpec | mobius-qa/mobius-chat-qa/chat_bot.py:122-129 | reading events stops at the first decisive one: it crashes when that one is not an object, finishes with its data (or `{}`) otherwise, first progress is the first `thinking` event seen before it, or the finishing time when there was none |
| ChatBot.FeedAllAppend | mobius-qa/mobius-chat-qa/chat_bot.py:118-129 | feeding two runs of events is feeding the first, then the second |
| ChatBot.FeedAllStopped | mobius-qa/mobius-chat-qa/chat_bot.py:129 | once the wait has ended, later events change nothing |
| ChatBot.FirstDecisivePrefix | mobius-qa/mobius-chat-qa/chat_bot.py:126-129 | a decisive event keeps its place when more events arrive; without one the search continues in the new events |
| ChatBot.React | mobius-qa/mobius-chat-qa/chat_bot.py:122-129 | one parsed event moves the wait exactly as the event step of the specification |
| ChatBot.ProcessBlock | mobius-qa/mobius-chat-qa/chat_bot.py:118-131 | the line loop over one event block ends in the state that feeding the block's events gives |
| ChatBot.Drain | mobius-qa/mobius-chat-qa/chat_bot.py:116-131 | the `while "\n\n" in buffer` loop feeds the events of every complete block and, while still waiting, keeps exactly the unframed tail |
| ChatBot.Cutoff | mobius-qa/mobius-chat-qa/chat_bot.py:113-114 | the chunks read are those before the first whose arrival is past `max_wait_sec` |
| ChatBot.DecidedEarly | mobius-qa/mobius-chat-qa/chat_bot.py:126-129 | an event that ended the wait stays the first decisive one however many chunks follow |
| ChatBot.SseSpecCases | mobius-qa/mobius-chat-qa/chat_bot.py:109-134 | the outcome is a crash exactly when the first decisive event of the chunks read is not an object, a completion exactly when it is one, and no completion exactly when there is none |
| ChatBot.WaitSse | mobius-qa/mobius-chat-qa/chat_bot.py:94-134 | the stream loop returns the outcome the specification gives for the chunks that arrived in time, with the completion time of the decisive chunk, or the end time and the first `thinking` time (0 if none) when nothing completed |
| ChatBot.WaitedOf | mobius-qa/mobius-chat-qa/chat_bot.py:129-134 | a crash becomes an escaping error, a completion a response, and no completion a missing response with its timings |
| ChatBot.FeedbackComment | mobius-qa/mobius-chat-qa/chat_bot.py:146-147 | a comment is cut to a prefix of at most 500 characters, and left alone when it fits; no comment stays no comment |
| ChatBot.Snippet | mobius-qa/mobius-chat-qa/chat_bot.py:237 | a message of at most 500 characters is kept; a longer one becomes its first 500 characters and an ellipsis |
| Text.OrElse | mobius-qa/mobius-chat-qa/chat_bot.py:184-185 | `x or default`: the value unless it is missing or empty |
| ChatBot.ExpectedOf | mobius-qa/mobius-chat-qa/chat_bot.py:186 | a blank expected answer (after stripping) counts as none; otherwise it is the stripped answer |
| ChatBot.PhrasesOf | mobius-qa/mobius-chat-qa/chat_bot.py:188-190 | given phrases are passed on; missing phrases become `[]` exactly when the question should be refused |
| ChatBot.Judgement | mobius-qa/mobius-chat-qa/chat_bot.py:240-254 | an adjudication stores its match flag and its reason cut to 500 characters; an adjudicator exception stores no match and `Adjudicator error: ` with the message |
| ChatBot.SubmitFeedback | mobius-qa/mobius-chat-qa/chat_bot.py:257-274 | the rating is `up` exactly on a match, the comment is the reason on a mismatch only; a failed post ends the run as `feedback_error` with the error appended; otherwise the run completes and is validated exactly when the stored rating is the posted one, a failed lookup appending its error |
| ChatBot.Round2Near | mobius-qa/mobius-chat-qa/chat_bot.py:228-229 | a stored time is a whole number of hundredths within half a hundredth of the measured one |
| ChatBot.Round2Positive | mobius-qa/mobius-chat-qa/chat_bot.py:228-229 | a stored time is positive exactly when the measured one exceeds 0.005 s, so shorter runs are stored as 0 and drop out of the latencies |
| ChatBot.RunOne | mobius-qa/mobius-chat-qa/chat_bot.py:170-275 | a failed chat post ends as `error`; a missing response as `timeout` with its timings rounded to hundredths (half to even); otherwise the snippet, the verdict and the feedback are recorded as above, and the question fields are always the stripped ones with their defaults |
| ChatBot.CompletionTimesMembers | mobius-qa/mobius-chat-qa/chat_bot.py:294 | the latencies collected are exactly the stored (rounded) completion times of completed runs whose stored time is positive |
| ChatBot.LatenciesSpec | mobius-qa/mobius-chat-qa/chat_bot.py:294-295 | the sorted latencies are ascending and a permutation of the collected ones |
| ChatBot.LatenciesPositive | mobius-qa/mobius-chat-qa/chat_bot.py:294 | every latency is positive |
| ChatBot.P95IndexBounds | mobius-qa/mobius-chat-qa/chat_bot.py:296 | the percentile index is the largest whose share is at most 95%, and always a valid index |
| ChatBot.Stats | mobius-qa/mobius-chat-qa/chat_bot.py:296-299 | with no latencies every figure is 0; otherwise the percentile is the latency at the 95% index |
| ChatBot.MinOf | mobius-qa/mobius-chat-qa/chat_bot.py:298 | `min` is an element no larger than any other |
| ChatBot.MaxOf | mobius-qa/mobius-chat-qa/chat_bot.py:299 | `max` is an element no smaller than any other |
| ChatBot.SumBounds | mobius-qa/mobius-chat-qa/chat_bot.py:297 | a sum of `n` values between two bounds lies between `n` times each bound |
| ChatBot.AverageOfBounded | mobius-qa/mobius-chat-qa/chat_bot.py:297 | the average of values between two bounds lies between them |
| ChatBot.StatsOrdered | mobius-qa/mobius-chat-qa/chat_bot.py:296-299 | min ≤ p95 ≤ max and min ≤ avg ≤ max, with min and max bounding every latency |
| ChatBot.P95AboveEarlier | mobius-qa/mobius-chat-qa/chat_bot.py:295-296 | on the sorted latencies the percentile is at least every latency up to its index |
| ChatBot.InCategory | mobius-qa/mobius-chat-qa/chat_bot.py:283-289 | a category's runs are exactly the runs whose category (or `unknown`) is that one |
| ChatBot.RefrainBounds | mobius-qa/mobius-chat-qa/chat_bot.py:287-292 | matches among the refusal categories never exceed their total, which never exceeds the run count; in-manual matches never exceed the in-manual runs |
| ChatBot.Failures | mobius-qa/mobius-chat-qa/chat_bot.py:301 | a run is listed as a failure exactly when it did not complete or did not match |
| ChatBot.FailuresSplit | mobius-qa/mobius-chat-qa/chat_bot.py:301 | the failures and the completed matching runs together account for every run |
| ChatBot.Cell | mobius-qa/mobius-chat-qa/chat_bot.py:330-331 | a table cell holds no `|` and no newline, and a text without them is only stripped |
| Email.PiecesFrom | mobius-skills/email/app/services/sender.py:25 | `re.split` on runs of whitespace, `,` and `;` gives at least one piece, and no piece holds a separator |
| Email.NormalizedText | mobius-skills/email/app/services/sender.py:22-25 | every address a text yields is non-empty and matches `EMAIL_RE`; a blank text yields none |
| Email.Normalized | mobius-skills/email/app/services/sender.py:13-25 | every address kept, from any nesting of lists, is non-empty and matches `EMAIL_RE` |
| Email.NormalizeAddresses | mobius-skills/email/app/services/sender.py:16-21 | the `extend` loop over a list argument returns exactly the in-order flattening of the normalised items |
| Email.NormalizedTextMembers | mobius-skills/email/app/services/sender.py:22-25 | a word is in the result exactly when it is one of the stripped text's pieces and matches `EMAIL_RE` |
| Email.NormalizedClean | mobius-skills/email/app/services/sender.py:16-25 | no address in the output holds a whitespace, comma or semicolon |
| Email.NormalizedAllAppend | mobius-skills/email/app/services/sender.py:17-21 | normalising a concatenation of lists is concatenating their normalisations: order is preserved |
| Email.NormalizedIdempotent | mobius-skills/email/app/services/sender.py:16-25 | normalising the output again gives the same list |
| Unicode.Utf8CharValue | mobius-skills/email/app/services/sender.py:162-168 | the UTF-8 bytes `quote` encodes decode back to the character's code point |
| Unicode.Utf8Append | mobius-skills/email/app/services/sender.py:162-168 | encoding a concatenation encodes the parts one after the other |
| Email.QuoteDecode | mobius-skills/email/app/services/sender.py:162-168 | percent-decoding a quoted text gives back its UTF-8 bytes: `quote` loses nothing |
| Email.QuoteClean | mobius-skills/email/app/services/sender.py:162-168 | a quoted text holds only unreserved characters, `/` and `%`, so never `&`, `?` or `=` |
| Email.SplitOnJoin | mobius-skills/email/app/services/sender.py:159-168 | splitting a joined text at a delimiter none of the parts holds gives the parts back |
| Email.FalsyNormalizesEmpty | mobius-skills/email/app/services/sender.py:154-155 | an argument the `if to` guard skips normalises to nothing anyway |
| Email.MailtoParams | mobius-skills/email/app/services/sender.py:160-166 | each of cc, subject and body is a parameter exactly when it is non-empty, and they come in the order cc, subject, body |
| Email.MailtoEmpty | mobius-skills/email/app/services/sender.py:154-157 | the link is empty exactly when no valid `to` address remains |
| Email.MailtoShape | mobius-skills/email/app/services/sender.py:159-168 | with some parameter the link is `mailto:`, the quoted comma-joined addresses, `?` and the `&`-joined parameters |
| Email.MailtoPlain | mobius-skills/email/app/services/sender.py:167-169 | with no parameter the addresses are joined with commas and not quoted |
| Email.MailtoParse | mobius-skills/email/app/services/sender.py:159-168 | with some parameter the link is `mailto:`, a head with no `?` that percent-decodes to the UTF-8 of the comma-joined addresses, `?`, and a query that splits at `&` into exactly the rendered parameters |
| Email.RenderedFree | mobius-skills/email/app/services/sender.py:162-166 | no rendered parameter holds `&`, so the query can be split back into them |
| Email.SendViaSmtp | mobius-skills/email/app/services/sender.py:95-120 | without an app password nothing is contacted and the error is `GMAIL_APP_PASSWORD not set`; otherwise the server receives the message for `to + cc`, and the send succeeds exactly when it raises nothing, with no message id |
| Email.SystemMessage | mobius-skills/email/app/services/sender.py:136-139 | the subject and body are prefixes of the inputs within the configured maxima, and unchanged when already short enough |
| Email.SystemRouting | mobius-skills/email/app/services/sender.py:123-149 | no valid `to` means no attempt and `No valid 'to' addresses`; Gmail is tried, first, exactly when credentials exist; SMTP is tried exactly when an app password is set and there are no credentials or Gmail failed |
| Email.NormalizeToList | mobius-skills/email/app/skills.py:15-19 | `None` gives the empty list and anything else the normalised addresses |
| Email.CraftEmail | mobius-skills/email/app/skills.py:22-33 | the crafter sees the normalised lists; its failure gives an empty subject and body with `LLM not configured or failed`, its answer is returned with no error |
| Email.SkillSendSame | mobius-skills/email/app/skills.py:36-49 | the skill sends exactly what the sender sends for the raw arguments with `None` subject or body as "" |
| Email.SkillMailtoSame | mobius-skills/email/app/skills.py:52-62 | the skill's link is the sender's link for the raw arguments with `None` subject or body as "" |
| Email.PrepareDraft | mobius-skills/email/app/skills.py:65-77 | the draft holds the normalised lists and the subject and body cut to the configured maxima, unchanged when short enough |
| Email.PrepareDraftIdempotent | mobius-skills/email/app/skills.py:65-77 | preparing a draft from a prepared draft returns it unchanged |
| Email.PrepareDirect | mobius-skills/email/scripts/test_email.py:23-28 | a draft to one address of letters, digits and `_.-~/` keeps the address and subject, and its link starts with `mailto:`, the address with `%40` for `@`, and `?` |
| Email.PreparedText | mobius-skills/email/app/main.py:35-45 | without `composition == "llm"` and a non-blank user text the request's own subject and body (`None` as "") are used |
| Email.CraftFailureKeepsInput | mobius-skills/email/app/main.py:40-45 | when the crafter fails, the request's own subject and body are kept |
| Email.EmailPrepareSpec | mobius-skills/email/app/main.py:30-52 | the response's draft is the prepared draft of the chosen text, and a link comes back exactly for the user's client, equal to the link for the request's own addresses |
| Email.EmailSendSpec | mobius-skills/email/app/main.py:55-96 | no transport is contacted unless confirmation is off and the sender is the system; with confirmation the draft comes back unsent; the user's client gets the link and the open-your-client text; a system send reports the sender's result, its confirmation text, and `Send failed` when the failure names no error |
| Email.EmailConfirm | mobius-skills/email/app/main.py:99-107 | confirmation is never asked for again, and a system request contacts exactly the transports the system send does |
| CostColumns.FirstName | mobius-skills/cmhc-cost-report/app/column_names.py:40-45 | the name comes from the first of the keys tried whose table gives the column a non-empty name; none when no key does |
| CostColumns.ColumnNameSpec | mobius-skills/cmhc-cost-report/app/column_names.py:33-46 | the worksheet code is tried as given, then stripped, then upper-cased, and the first that names the column wins; otherwise the header is `Col n` |
| CostColumns.UnknownVintage | mobius-skills/cmhc-cost-report/app/column_names.py:39 | a form vintage without a table of its own reads the 2088-17 table |
| CostColumns.OneTable | mobius-skills/cmhc-cost-report/app/column_names.py:22-30 | every vintage reads the 2088-17 worksheets, where `A` and `A000000` share one column table |
| CostColumns.ShortAlias | mobius-skills/cmhc-cost-report/app/column_names.py:22-25 | worksheet `A` and worksheet `A000000` give every column the same header |
| CostColumns.PlainCode | mobius-skills/cmhc-cost-report/app/column_names.py:40-46 | a code of capitals and digits is looked up as given: its table's name for the column, or `Col n` |
| CostColumns.UnnamedColumn | mobius-skills/cmhc-cost-report/app/column_names.py:46 | a column the A000000 table does not name is headed `Col ` and its number |
| CostColumns.FallbackReads | mobius-skills/cmhc-cost-report/app/column_names.py:46 | the fallback header is `Col ` followed by the decimal digits of the column number, which read back as that number |
| CostColumns.ColumnNames | mobius-skills/cmhc-cost-report/app/column_names.py:49-58 | one header per column number, in the same order, each the header of that column |
| CostParse.FirstUsable | mobius-skills/cmhc-cost-report/app/parser.py:27-31 | the field of the first candidate column that is present, not None and not blank once printed; none exactly when no candidate qualifies |
| CostParse.PickCol | mobius-skills/cmhc-cost-report/app/parser.py:27-31 | the early-return loop over the candidates returns the first usable field |
| CostParse.ParseDate | mobius-skills/cmhc-cost-report/app/parser.py:34-49 | None, NaN and blank text give no date; other text is stripped and handed to the date parser |
| CostParse.IntField | mobius-skills/cmhc-cost-report/app/parser.py:90-92 | an absent or blank field, or NaN (which `int` refuses), gives no integer |
| CostParse.FloatField | mobius-skills/cmhc-cost-report/app/parser.py:97-100 | an absent or blank field gives no value; NaN stays NaN |
| CostParse.RptRowOf | mobius-skills/cmhc-cost-report/app/parser.py:52-74 | a header RPT row is dropped exactly when neither the key columns nor the first column hold a usable key; a kept row has a non-empty key and the form vintage |
| CostParse.NmrcRowOf | mobius-skills/cmhc-cost-report/app/parser.py:77-108 | a header NMRC row is kept exactly when a key column is usable, with a non-empty key |
| CostParse.AlphaValCols | mobius-skills/cmhc-cost-report/app/parser.py:115-124 | the value columns tried are the four fixed ones, then the first table column whose upper-cased name contains VAL or TEXT, if any |
| CostParse.AlphaRowOf | mobius-skills/cmhc-cost-report/app/parser.py:111-142 | a header Alpha row is kept exactly when a key column is usable, with a non-empty key |
| CostParse.RptPositional | mobius-skills/cmhc-cost-report/app/parser.py:183-201 | a headerless RPT row is dropped exactly when it has fewer than 7 fields or a blank key; the key is field 0 stripped |
| CostParse.NmrcPositional | mobius-skills/cmhc-cost-report/app/parser.py:204-233 | a headerless NMRC row is dropped exactly when it has fewer than 5 fields or a blank key; the key is field 0 stripped |
| CostParse.AlphaPositional | mobius-skills/cmhc-cost-report/app/parser.py:236-261 | a headerless Alpha row is dropped exactly when it has fewer than 5 fields or a blank key; the key is field 0 stripped |
| CostParse.NanKeyKept | mobius-skills/cmhc-cost-report/app/parser.py:188-213 | as written, an empty key field read as NaN is kept with key `nan`, and an empty NMRC value becomes NaN |
| CostParse.Clean | mobius-skills/cmhc-cost-report/app/parser.py:35 | NaN becomes a missing field; text is unchanged |
| CostParse.CleanRow | mobius-skills/cmhc-cost-report/app/parser.py:56 | the cleaned row has the same columns, each field cleaned |
| CostParse.CleanParts | mobius-skills/cmhc-cost-report/app/parser.py:187 | the cleaned fields keep their positions, each cleaned |
| CostParse.CleanKeyKept | mobius-skills/cmhc-cost-report/app/parser.py:188-213 | with NaN read as missing, a headerless row is kept exactly when it is wide enough and its key field holds non-blank text, and the key is that text stripped; an empty NMRC value is no value |
| CostParse.Collect | mobius-skills/cmhc-cost-report/app/parser.py:54-74 | the rows kept are as many as the rows the row function accepts |
| CostParse.KeepRows | mobius-skills/cmhc-cost-report/app/parser.py:55-74 | the append loop returns the rows the row function accepts, in row order |
| CostParse.CollectAppend | mobius-skills/cmhc-cost-report/app/parser.py:294 | parsing two runs of rows in turn gives the concatenation of their parses |
| CostParse.CollectFrom | mobius-skills/cmhc-cost-report/app/parser.py:55-74 | a row is in the output exactly when some input row parses to it |
| CostParse.ParseRptDf | mobius-skills/cmhc-cost-report/app/parser.py:52-74 | the RPT rows are those the RPT row function keeps from the cleaned rows, in order |
| CostParse.ParseNmrcDf | mobius-skills/cmhc-cost-report/app/parser.py:77-108 | the NMRC rows are those the NMRC row function keeps from the cleaned rows, in order |
| CostParse.ParseAlphaDf | mobius-skills/cmhc-cost-report/app/parser.py:111-142 | the Alpha rows are those the Alpha row function keeps from the cleaned rows, in order |
| CostParse.ParseRptPositional | mobius-skills/cmhc-cost-report/app/parser.py:183-201 | the RPT rows are those the positional RPT row function keeps from the cleaned rows, in order |
| CostParse.ParseNmrcPositional | mobius-skills/cmhc-cost-report/app/parser.py:204-233 | the NMRC rows are those the positional NMRC row function keeps, in order |
| CostParse.ParseAlphaPositional | mobius-skills/cmhc-cost-report/app/parser.py:236-261 | the Alpha rows are those the positional Alpha row function keeps, in order |
| CostParse.RptDfRows | mobius-skills/cmhc-cost-report/app/parser.py:62-73 | every RPT row parsed from a table with a header has a non-empty key, carries the form vintage and comes from some input row |
| CostParse.NmrcPositionalRows | mobius-skills/cmhc-cost-report/app/parser.py:204-233 | a headerless NMRC table yields a row exactly when some input row parses to it, and every row's key is the stripped text of that row's first field |
| CostParse.FindInZip | mobius-skills/cmhc-cost-report/app/parser.py:145-160 | the first member whose lower-cased name contains the pattern and none of the exclusions; none when no member matches |
| CostParse.FindAllInZip | mobius-skills/cmhc-cost-report/app/parser.py:174-180 | exactly the member names that contain the pattern and none of the exclusions, ignoring case |
| CostParse.ParseFiles | mobius-skills/cmhc-cost-report/app/parser.py:289-312 | the loop reads each member in turn, skips it when empty or too narrow, and extends the output with its parse |
| CostParse.ParseHcrisZip | mobius-skills/cmhc-cost-report/app/parser.py:273-314 | RPT, NMRC and Alpha outputs are the concatenated parses of their members in sorted name order, members narrower than 7 (RPT) or 5 fields skipped |
| CostParse.FromFilesFrom | mobius-skills/cmhc-cost-report/app/parser.py:289-312 | a row is in the output exactly when some member that is not skipped parses to it |
| CostParse.RptRowsFromRptMembers | mobius-skills/cmhc-cost-report/app/parser.py:281-294 | every RPT row comes from a member whose name contains `rpt` and neither `nmrc` nor `alpha`, ignoring case |
| CostParse.SameMembers | mobius-skills/cmhc-cost-report/app/parser.py:174-180 | archives listing the same names in any order select the same members in the same sorted order |
| CostParse.ArchiveOrderIrrelevant | mobius-skills/cmhc-cost-report/app/parser.py:289-312 | the three outputs do not depend on the order in which the archive lists its members |
| CostSkills.CcnRangeSpec | mobius-skills/cmhc-cost-report/app/skills.py:13-44 | FL and FLORIDA, in any case, give CCN range 4600-4999; any other state gives 0-99999 |
| CostSkills.PeerRangeSame | mobius-skills/cmhc-cost-report/app/skills.py:222-225 | the extra unknown-state test in the peer comparison yields the same range as the table lookup |
| CostSkills.FillGrid | mobius-skills/cmhc-cost-report/app/skills.py:395-417 | the two loops fill the grid from the NMRC rows, then from the Alpha rows if included |
| CostSkills.NumericGridLast | mobius-skills/cmhc-cost-report/app/skills.py:396-397 | the grid holds exactly the keys of the NMRC rows (a NULL line or column read as 0), each with the value of the last row at that key |
| CostSkills.AlphaFilledFirst | mobius-skills/cmhc-cost-report/app/skills.py:414-417 | Alpha rows never change a key already present; a free key takes the value of the first Alpha row at it |
| CostSkills.GridSpec | mobius-skills/cmhc-cost-report/app/skills.py:395-417 | the grid's keys are those of the NMRC rows plus, with Alpha included, the Alpha rows; NMRC keys hold the last NMRC value, other keys the first Alpha value |
| CostSkills.SheetRow | mobius-skills/cmhc-cost-report/app/skills.py:426 | one entry per column, each the grid's value at that line and column, or NULL |
| CostSkills.SheetOf | mobius-skills/cmhc-cost-report/app/skills.py:419-441 | an empty grid gives no cells; otherwise the sheet is lines x columns, and each cell holds the grid value at its line and column, or NULL |
| CostSkills.SheetRows | mobius-skills/cmhc-cost-report/app/skills.py:424-427 | one row per line, each the row of that line |
| CostSkills.AssembleSheet | mobius-skills/cmhc-cost-report/app/skills.py:419-441 | the loop builds the sheet of the grid, with headers for the columns under the vintage (2088-17 when none) |
| CostSkills.SheetCells | mobius-skills/cmhc-cost-report/app/skills.py:422-440 | every stored value appears at its line and column; rows and columns count the distinct lines and columns; one header per column |
| CostSkills.FirstValue | mobius-skills/cmhc-cost-report/app/skills.py:458-476 | the value of the first row at the cell; none when no row is there (a NULL line or column never matches) |
| CostSkills.GetCell | mobius-skills/cmhc-cost-report/app/skills.py:444-498 | the type is numeric exactly when an NMRC row is at the cell, alpha exactly when only an Alpha row is, and otherwise None with value None |
| CostSkills.CellMatchesSheet | mobius-skills/cmhc-cost-report/app/skills.py:395-498 | with keyed rows and at most one NMRC row per cell, a single cell reads as the worksheet grid holds it, and is found exactly when the grid has it |
| CostSkills.SortedPeersPerm | mobius-skills/cmhc-cost-report/app/skills.py:299 | the sort lists exactly the peers that have a metric row |
| CostSkills.SortedPeersOrder | mobius-skills/cmhc-cost-report/app/skills.py:299 | the sort puts higher values first, a missing or NULL value counting as 0 |
| CostSkills.PeerKeysSpec | mobius-skills/cmhc-cost-report/app/skills.py:295 | a report is among the ranked keys exactly when the metric query returned a row for it |
| CostSkills.TiesSplit | mobius-skills/cmhc-cost-report/app/skills.py:298-300 | as written, two different peers never share a rank, so of two tied peers one ranks below the other |
| CostSkills.TieExample | mobius-skills/cmhc-cost-report/app/skills.py:298-300 | two peers both valued 5 get ranks 1 and 2 as written, and rank 1 each as intended |
| CostSkills.RankSpec | mobius-skills/cmhc-cost-report/app/skills.py:298-300 | only peers have a rank; equal values share a rank; a higher value ranks strictly better; rank 1 means no peer scores higher; never worse than the position reported as written |
| CostSkills.RankShared | mobius-skills/cmhc-cost-report/app/skills.py:298 | peers with equal values get the same rank |
| CostSkills.RankBetter | mobius-skills/cmhc-cost-report/app/skills.py:298 | a strictly higher value gives a strictly smaller rank |
| CostSkills.RankTop | mobius-skills/cmhc-cost-report/app/skills.py:298-300 | rank 1 exactly when no peer scores higher |
| CostSkills.RankNotWorse | mobius-skills/cmhc-cost-report/app/skills.py:299-300 | the rank is at most the target's 1-based position in the sorted order |
| CostSkills.ComparePeers | mobius-skills/cmhc-cost-report/app/skills.py:244-311 | no target report gives no report; no full metric gives the peer count without a rank; otherwise the target's value and its rank, present exactly when the metric query returned a row for it |
| CostSkills.FirstForYear | mobius-skills/cmhc-cost-report/app/skills.py:136-140 | the first match whose fiscal year end equals the stripped year asked for; none when no match does |
| CostSkills.ChooseReportSpec | mobius-skills/cmhc-cost-report/app/skills.py:128-143 | no match gives the not-found message; a fiscal year picks the first match for that year, else the first match; the vintage defaults to 2088-17 |
| Sorting.SortedSet | mobius-skills/cmhc-cost-report/app/skills.py:422-423 | each element of the set once, in strictly increasing order |
| Landing.ProcNameWord | landing_server.py:143-144 | every process name written to the PID file is a single space-free-at-the-ends word, so it reads back unchanged |
| Landing.ProcNames | landing_server.py:25-42 | the names of a list of processes, one per process, in order |
| Landing.StopInfo | landing_server.py:25-42 | a service has a stop entry exactly when its id is one of os, chat, rag, dbt, chat-worker, scraper, rag-chunking, rag-embedding |
| Landing.RagProcs | landing_server.py:66-81 | the RAG service starts backend, chunking worker and frontend, plus the embedding worker exactly when its script is present (inserted before the frontend) |
| Landing.CommandNames | landing_server.py:173 | the names of a command list, one per command, in order |
| Landing.CommandsOf | landing_server.py:45-82 | each process becomes one (name, shell command) pair, in order |
| Landing.StartMatchesStop | landing_server.py:25-82 | a service id has start commands exactly when it has a stop entry, and every process it starts is among those its stop entry kills |
| Landing.StartNamesStoppable | landing_server.py:25-82 | for every known service, every started command's name is one of the names stopping that service removes from the PID file |
| Landing.ProbeOne | landing_server.py:193-206 | a 2xx answer is up, or slow from 2000 ms on; a failed request or any other code is down; the elapsed time is kept |
| Landing.RStripSlash | landing_server.py:195 | `rstrip("/")`: a prefix of the input with no trailing slash, having dropped only slashes |
| Landing.ProbeUrl | landing_server.py:195 | the probed URL ends with the probe path |
| Landing.RagEntrySpec | landing_server.py:209-260 | RAG is up when both halves are up, slow when both are live and one is slow, degraded when exactly one is live (reporting its time), down when neither is; otherwise the time is the larger of the two |
| Landing.RagEntrySymmetric | landing_server.py:209-260 | swapping backend and frontend changes neither the RAG status nor its time |
| Landing.ProcessEntries | landing_server.py:266-276 | one status entry per probed process, in table order |
| Landing.WorkerEntries | landing_server.py:281-293 | one status entry per worker, in table order |
| Landing.ListProcesses | landing_server.py:263-278 | the loop builds exactly the sorted process list the specification function gives |
| Landing.ListWorkers | landing_server.py:281-293 | the loop builds exactly one entry per worker probe, in order |
| Landing.GetStatus | landing_server.py:263-299 | the status page holds the sorted processes, the workers and the given time |
| Landing.SortFour | landing_server.py:278 | sorting by the order key moves `dbt` (key 3) after `rag` (key 2) and keeps the rest |
| Landing.ProcessesOrder | landing_server.py:263-278 | the page lists exactly os, chat, rag, dbt in that order, rag being the combined backend/frontend entry |
| Landing.WorkersSpec | landing_server.py:98-103 | the workers are chat-worker, scraper, rag-chunking, rag-embedding; only the scraper is probed (at port 8002 /health), the others have no endpoint |
| Landing.FirstSpace | landing_server.py:141 | the index of the first white-space character, or the length when there is none |
| Landing.SplitWordSpec | landing_server.py:141-142 | `line.strip().split(None, 1)` has two parts exactly when the stripped line holds white space; then the first is a non-empty space-free prefix and the second a trimmed suffix, separated only by white space |
| Landing.SplitAt | landing_server.py:141 | splitting a trimmed line at a white-space character leaves a non-empty first word and a trimmed rest |
| Landing.PidLineSplit | landing_server.py:186 | a written `"<pid> <name>"` line splits back into the pid digits and the name |
| Landing.FirstSpaceAt | landing_server.py:141 | the first white space is found at the index where it occurs |
| Landing.KeptLines | landing_server.py:137-152 | stopping never makes the PID file longer |
| Landing.KeptLinesSpec | landing_server.py:137-152 | a line stays exactly when it does not name a process of the service; every line is either kept or has its pid killed |
| Landing.KeptLinesAppend | landing_server.py:137-152 | the PID-file filter works line by line: filtering a concatenation concatenates the filtered parts |
| Landing.KeptLinesNone | landing_server.py:137-152 | a file whose every line names a stopped process is emptied |
| Landing.FilterPidLines | landing_server.py:137-152 | the loop keeps exactly the lines the specification keeps and kills exactly their complement's pids |
| Landing.LaunchedStep | landing_server.py:173-189 | a command that starts contributes its PID line and its name, then the launch goes on with the next command |
| Landing.AfterAfter | landing_server.py:173-189 | two successive launch steps compose into one with the lines and names concatenated |
| Landing.LaunchAll | landing_server.py:173-189 | the start loop gives exactly the launch outcome of the specification function |
| Landing.LaunchedPrefix | landing_server.py:173-190 | the started names are a prefix of the commands, one PID line each, and the launch fails exactly when not all commands started |
| Landing.LaunchedLines | landing_server.py:186 | the k-th PID line is `"<pid> <name>"` of the k-th command, which started |
| Landing.LaunchedFailure | landing_server.py:188-189 | a failed launch stops at the first command that failed and reports "Failed to start <name>: <error>" |
| Landing.StopRemovesLaunched | landing_server.py:137-152 | stopping removes every PID line a start of the same commands appended, and nothing else changes |
| Landing.StopUndoesStart | landing_server.py:130-190 | for every known service, stopping it after starting it leaves the PID file as it was before the start |
| Landing.ReadJsonBody | landing_server.py:387-395 | no body (length ≤ 0) or malformed JSON gives `{}`; otherwise the parsed document |
| Landing.RequestedIdSpec | landing_server.py:397-403 | a non-object body fails before answering; a truthy `id` is used when it is a string (400 otherwise); otherwise a non-empty string `service_id` is used; the id is stripped and lowercased |
| Landing.Host.constructor | landing_server.py:20 | a host with the given root, embedding-worker presence and PID file, nothing killed or freed yet |
| Landing.Host.StopService | landing_server.py:130-156 | unknown ids give "Unknown service: <id>" and change nothing; otherwise the PID file keeps exactly the lines not naming the service's processes, their pids are killed, its ports are freed, and the answer is "Stopped <id>" |
| Landing.Host.StartService | landing_server.py:159-190 | unknown ids and services without commands fail with their messages and change nothing; otherwise the ports are freed, the started commands' PID lines are appended, and the answer is "Started <id>: names" or the first failure |
| Landing.Host.HandleServiceStop | landing_server.py:397-405 | a non-object body gets no reply, a missing or non-string id gets 400 and changes nothing; otherwise 200 with `ok` exactly when the id is a known service; an unknown id changes nothing and says so, a known one answers `Stopped <id>` with the PID file, the killed PIDs and the freed ports exactly as stopping the service leaves them |
| Landing.Host.HandleServiceRestart | landing_server.py:407-417 | as the stop handler for bad bodies; otherwise 200 with `ok` exactly when the service is known, has commands, and every command started; the message is the start's (unknown service, no commands, the first failure, or the services started), and the new state is the stop's followed by the start's: the service's old PID lines gone and killed, its ports freed twice, and the new PID lines appended |
| Landing.ScriptEndpoint | landing_server.py:333-385 | a missing script gives 404; otherwise 200 with `ok` exactly when the script exited with 0, its trimmed output, and the success message or "… exited with code N" |
| Landing.OutputTrimmed | landing_server.py:349-354 | the reported script output has no white space at either end |
| Landing.GetRouteOf | landing_server.py:306-312 | `/api/status` and nothing else is the status route; `/` serves `/index.html`; other paths are served as they are |
| DbUrl.FindAny | scripts/inventory_chat_rag_state.py:55 | the first index holding one of the delimiters, or the length: nothing before it is a delimiter |
| DbUrl.FindAnyUnique | scripts/inventory_chat_rag_state.py:55 | the first-delimiter index is the only index with that property |
| DbUrl.FindLast | scripts/inventory_chat_rag_state.py:58 | the last occurrence of a character, with none after it; none when the character does not occur |
| DbUrl.PartitionAt | scripts/inventory_chat_rag_state.py:61 | `str.partition` splits at the first occurrence: `(a + c + b).partition(c) == (a, b)` when `c` is not in `a` |
| DbUrl.PartitionNone | scripts/inventory_chat_rag_state.py:61 | without the separator, `partition` gives the whole string and an empty tail |
| DbUrl.RPartitionAt | scripts/inventory_chat_rag_state.py:58 | `str.rpartition` splits at the last occurrence: `(a + c + b).rpartition(c) == (a, b)` when `c` is not in `b` |
| DbUrl.RPartitionNone | scripts/inventory_chat_rag_state.py:58 | without the separator, `rpartition` gives an empty head and the whole string |
| DbUrl.SplitSchemeOf | scripts/inventory_chat_rag_state.py:55 | `urlparse` takes a well-formed scheme before `:` and lowercases it |
| DbUrl.SplitNetlocOf | scripts/inventory_chat_rag_state.py:56 | after `//`, the network location runs up to the first `/`, `?` or `#` |
| DbUrl.PathOfSpec | scripts/inventory_chat_rag_state.py:57 | the path runs up to the first `?` or `#` |
| DbUrl.UrlParseOf | scripts/inventory_chat_rag_state.py:55-57 | `urlparse("scheme://netloc/path?query")` gives the lowercased scheme, the network location and the path |
| Unicode.Width | scripts/inventory_chat_rag_state.py:62 | a byte below 0x80 stands alone, a lead byte announces a sequence of at most four bytes, and no other byte starts one |
| Unicode.WellFormedScalar | scripts/inventory_chat_rag_state.py:62 | a complete sequence (lead byte and the continuation bytes its ranges allow) stands for a Unicode scalar value from 0x80 up: no surrogate, nothing above U+10FFFF |
| Unicode.Fitting | scripts/inventory_chat_rag_state.py:62 | the maximal subpart a lead byte starts: every byte in it follows the lead, and when it is short of the announced width the data ended or the next byte does not follow |
| Unicode.DecodeUtf8 | scripts/inventory_chat_rag_state.py:62 | `decode("utf-8", "replace")` yields at most one character per byte |
| Unicode.Utf8CharWellFormed | scripts/inventory_chat_rag_state.py:62 | the encoding of a character from 0x80 up is a complete sequence of the width its lead byte announces |
| Unicode.DecodeUtf8Char | scripts/inventory_chat_rag_state.py:62 | decoding reads a character's encoding back as that character and carries on with the bytes after it |
| Unicode.DecodeEncoded | scripts/inventory_chat_rag_state.py:62 | decoding undoes encoding: `s.encode("utf-8").decode("utf-8", "replace") == s` |
| Unicode.StrayBytes | scripts/inventory_chat_rag_state.py:62 | a byte that starts no sequence, a stray continuation byte and a truncated sequence each become one U+FFFD |
| DbUrl.PercentBytes | scripts/inventory_chat_rag_state.py:62 | `unquote_to_bytes` never makes the bytes longer |
| DbUrl.PercentBytesPlain | scripts/inventory_chat_rag_state.py:62 | bytes without `%` are their own unquoting |
| DbUrl.Utf8NoPercent | scripts/inventory_chat_rag_state.py:62 | only a `%` character puts a `%` byte into the UTF-8 encoding |
| DbUrl.UnquoteTextPlain | scripts/inventory_chat_rag_state.py:62 | a password without `%` comes through `unquote_to_bytes(...).decode("utf-8", "replace")` unchanged |
| DbUrl.AsciiRun | scripts/inventory_chat_rag_state.py:69 | the ASCII run `unquote` splits off: every character in it is below 0x80 and the one after it is not |
| DbUrl.Utf8AsciiLength | scripts/inventory_chat_rag_state.py:69 | an ASCII run encodes to one byte per character, its code |
| DbUrl.Unquote | scripts/inventory_chat_rag_state.py:69 | `unquote` never makes a string longer |
| DbUrl.UnquotePlain | scripts/inventory_chat_rag_state.py:69 | a user name with no `%` is decoded to itself |
| DbUrl.UnquoteTwoByteChar | scripts/inventory_chat_rag_state.py:62-69 | `%C3%A9` is read as `é` in the user name and in the password: percent codes spell UTF-8, not one character each |
| DbUrl.UnquoteStrayByte | scripts/inventory_chat_rag_state.py:69 | `%FF` is read as U+FFFD |
| DbUrl.AsciiRunAll | scripts/inventory_chat_rag_state.py:69 | an all-ASCII text is a single run |
| DbUrl.LStripSlash | scripts/inventory_chat_rag_state.py:57 | `lstrip("/")` leaves no leading slash |
| DbUrl.SplitUrlEmptyAuthority | scripts/inventory_chat_rag_state.py:58-60 | a URL without a host part is handed to the driver as it is |
| DbUrl.SplitBuiltUrl | scripts/list_documents_with_tags.py:52-69 | a URL built from user, password, host, port and database name splits back into exactly those settings (an empty database name becomes `postgres`) |
| DbUrl.HostWithoutPortLost | scripts/inventory_chat_rag_state.py:63 | as written, a URL `postgresql://user@host/db` without a port connects to `localhost`, not to `host` |
| DbUrl.HostWithoutPortKept | scripts/list_documents_with_tags.py:60 | with the port split only when a `:` is present, the same URL connects to `host` on port 5432 |
| DbUrl.HostPortIntendedAgrees | scripts/list_documents_with_tags.py:60 | whenever the host part holds a `:`, the corrected split agrees with the one as written |
| DbUrl.ChatUrlGuard | scripts/inventory_chat_rag_state.py:76-82 | a chosen chat URL is non-empty, trimmed and free of `${`; `CHAT_DATABASE_URL` wins when it is set; no URL when neither variable is set |
| Dismissed.TagKeys | mobius-qa/lexicon-maintenance/app/repositories/dismissed_repo.py:44 | one normalised key per tag, duplicates kept |
| Dismissed.FingerprintByKeys | mobius-qa/lexicon-maintenance/app/repositories/dismissed_repo.py:42-44 | two tag lists whose normalised keys are the same multiset have the same fingerprint |
| Dismissed.FingerprintPermutation | mobius-qa/lexicon-maintenance/app/repositories/dismissed_repo.py:42-44 | the fingerprint does not depend on the order of the tags |
| Dismissed.KeysPermutation | mobius-qa/lexicon-maintenance/app/repositories/dismissed_repo.py:44 | reordering the tags reorders their keys |
| Dismissed.FingerprintNormalised | mobius-qa/lexicon-maintenance/app/repositories/dismissed_repo.py:44 | normalising the tags first (strip, lower) does not change the fingerprint |
| Dismissed.TagKeyIdempotent | mobius-qa/lexicon-maintenance/app/repositories/dismissed_repo.py:44 | normalising a tag twice is normalising it once |
| Dismissed.IssueTypeVerbatim | mobius-qa/lexicon-maintenance/app/repositories/dismissed_repo.py:44 | the issue type is not normalised: different types of equal length never share a fingerprint |
| Dismissed.DuplicatesKept | mobius-qa/lexicon-maintenance/app/repositories/dismissed_repo.py:44 | a repeated tag appears twice in the fingerprint, so `[t, t]` and `[t]` differ |
| Dismissed.DismissedTable.constructor | mobius-qa/lexicon-maintenance/app/repositories/dismissed_repo.py:4 | the process starts with the table not yet ensured |
| Dismissed.DismissedTable.Ensure | mobius-qa/lexicon-maintenance/app/repositories/dismissed_repo.py:7-30 | once ensured nothing is done again; otherwise the table exists afterwards when the create succeeded, and a failed create is swallowed and retried on the next call |
| LexConfig.LoadedEnvSpec | mobius-qa/lexicon-maintenance/app/config.py:9-27 | after loading, a variable is defined when it was defined before or in the file; non-empty `QA_DATABASE_URL`/`RAG_DATABASE_URL` keep their process value, other file values override |
| LexConfig.Environment.constructor | mobius-qa/lexicon-maintenance/app/config.py:9 | the process environment as given |
| LexConfig.Environment.LoadEnv | mobius-qa/lexicon-maintenance/app/config.py:9-27 | the environment becomes the loaded one; with no readable file it is unchanged |
| LexConfig.RestoredSpec | mobius-qa/lexicon-maintenance/app/config.py:23-25 | the restore loop puts back exactly the preserved non-empty values and leaves every other variable |
| LexConfig.RestoredIsLoaded | mobius-qa/lexicon-maintenance/app/config.py:21-25 | overriding with the file and then restoring the preserved keys gives the specified loaded environment |
| LexConfig.SettingSpec | mobius-qa/lexicon-maintenance/app/config.py:33-34 | `_env`: the trimmed value when it is set and not blank, otherwise the default; the result is always trimmed |
| LexConfig.PgSettingsSpec | mobius-qa/lexicon-maintenance/app/config.py:37-41 | user, host and port are never empty and default to postgres, 127.0.0.1 and 5432; a password is used exactly when one is set |
| LexConfig.PgUrl | mobius-qa/lexicon-maintenance/app/config.py:42-44 | a built URL starts with `postgresql://` and ends with `?connect_timeout=5` |
| LexConfig.QaUrlChoice | mobius-qa/lexicon-maintenance/app/config.py:47-48 | the QA URL is `QA_DATABASE_URL` when set, otherwise built for `mobius_qa` |
| LexConfig.RagUrlChoice | mobius-qa/lexicon-maintenance/app/config.py:51-58 | the RAG URL is `RAG_DATABASE_URL` when set, else `DATABASE_URL` with the asyncpg scheme replaced, else built for `mobius_rag` |
| LexConfig.QaUrlSurvivesLoad | mobius-qa/lexicon-maintenance/app/config.py:21-25 | a QA URL set in the process is not changed by loading the file |
| LexConfig.RagUrlSurvivesLoad | mobius-qa/lexicon-maintenance/app/config.py:21-25 | a RAG URL set in the process is not changed by loading the file |
| Sorting.InsertBySpec | mobius-qa/retrieval-eval/generate_questions_from_manual.py:277 | inserting into a sorted list keeps it sorted and adds exactly the element |
| Sorting.SortBySpec | mobius-qa/retrieval-eval/generate_questions_from_manual.py:277 | `sort(key=…)`: the result is ordered by the key and a permutation of the input |
| Sorting.SortByStable | landing_server.py:278 | the sort is stable: the elements with equal keys keep their input order |
| Sorting.StrOrder | mobius-qa/lexicon-maintenance/app/repositories/dismissed_repo.py:44 | Python's string comparison is a total order |
| Sorting.SortStringsSpec | mobius-qa/lexicon-maintenance/app/repositories/dismissed_repo.py:44 | `sorted` of strings: a permutation in non-decreasing order |
| Sorting.SortedStringsUnique | mobius-qa/lexicon-maintenance/app/repositories/dismissed_repo.py:44 | two sorted permutations of the same strings are equal, so the sorted order depends only on the multiset |
| Sorting.Least | mobius-skills/cmhc-cost-report/app/skills.py:422-423 | the least element of a non-empty set of integers |
| MaintScripts.LastWinsSpec | scripts/cleanup_db_connections.py:16-22 | a key built by a dictionary-filling loop is present exactly when some item gives it, and holds the value of the last item that gives it |
| MaintScripts.Thousands | scripts/inventory_chat_rag_state.py:151-152 | `{:,}` is never empty, never starts with a comma, and is plain decimal below 1000 |
| MaintScripts.ThousandsDigits | scripts/inventory_chat_rag_state.py:151-152 | removing the thousands separators from `{:,}` gives the plain decimal numeral |
| MaintScripts.DocCells | scripts/inventory_chat_rag_state.py:168-171 | the document cells are prefixes of the name (at most 60) and the id (at most 36), shown whole when short enough; a missing or empty name shows a dash |
| MaintScripts.SyncCells | scripts/inventory_chat_rag_state.py:201-207 | a sync-run line starts with the first 8 characters of the run id and `...`; the start is at most 19 characters; a count shows a dash exactly when it is missing or zero, and otherwise reads back as the count |
| MaintScripts.SummaryLines | scripts/inventory_chat_rag_state.py:208-220 | the summary block ends with an empty line |
| MaintScripts.ReportBody | scripts/inventory_chat_rag_state.py:138-220 | the report body is never empty and ends with an empty line |
| MaintScripts.AppendLines | scripts/inventory_chat_rag_state.py:159-160 | a row loop appends exactly one formatted line per row, in order |
| MaintScripts.BodyLines | scripts/inventory_chat_rag_state.py:138-220 | the loops build exactly the specified report body |
| MaintScripts.ToMarkdown | scripts/inventory_chat_rag_state.py:138-226 | the Markdown text is the specified report lines joined with newlines |
| MaintScripts.LastUpsertSpec | scripts/inventory_chat_rag_state.py:221-225 | the report ends with the "Last Vertex upsert" bullet exactly when the newest sync run has a vector count (zero included), and with an empty line otherwise |
| MaintScripts.OrEmpty | scripts/list_documents_with_tags.py:106-108 | `x or {}` keeps the truthiness of the tag field |
| MaintScripts.TagCount | scripts/list_documents_with_tags.py:127-129 | a tag count is positive exactly when the tag field is truthy |
| MaintScripts.CollectTags | scripts/list_documents_with_tags.py:102-109 | the loop builds exactly the specified id → tags map |
| MaintScripts.TagsByIdSpec | scripts/list_documents_with_tags.py:102-109 | a document id is in the map exactly when some row has it, and maps to the last such row's fields with `or {}` applied |
| MaintScripts.SampleKeys | scripts/list_documents_with_tags.py:134-135 | the d-tag sample has at most 8 keys |
| MaintScripts.DocRowSpec | scripts/list_documents_with_tags.py:124-148 | a document has tags exactly when its entry exists with some truthy field; line tags default to 0; the sample is the first 8 d-tag keys of an object and empty otherwise |
| MaintScripts.BuildRows | scripts/list_documents_with_tags.py:123-148 | one output row per document, in order, each the specified row |
| MaintScripts.TableCells | scripts/list_documents_with_tags.py:158-165 | the id cell is at most 11 characters, starting with the first 8 of the id (whole when short); the sample cell is at most 35: a dash when there is no sample, the first four keys joined when that fits, otherwise its first 32 characters and `...` |
| MaintScripts.StripLeft | scripts/cleanup_db_connections.py:22 | `lstrip(c)` removes exactly the leading run of `c` |
| MaintScripts.StripRight | scripts/cleanup_db_connections.py:22 | `rstrip(c)` removes exactly the trailing run of `c` |
| MaintScripts.StripCharSpec | scripts/cleanup_db_connections.py:22 | `strip(c)` leaves the part of the string between two runs of `c`, neither starting nor ending with `c` |
| MaintScripts.SplitSetting | scripts/cleanup_db_connections.py:21-22 | the key is the trimmed text before the first `=`, so it holds no `=`; the value has no surrounding `'` |
| MaintScripts.ParseEnvLine | scripts/cleanup_db_connections.py:19-22 | a line gives a setting exactly when, stripped, it is non-empty, not a `#` comment, and holds a `=` |
| MaintScripts.ParseEnvLineRoundTrip | scripts/cleanup_db_connections.py:19-22 | a line `KEY=value` with a plain key and an unquoted trimmed value reads back as exactly that key and value |
| MaintScripts.ParseEnv | scripts/cleanup_db_connections.py:16-22 | the loop builds exactly the specified settings map |
| MaintScripts.EnvOfSpec | scripts/cleanup_db_connections.py:16-22 | a key is set exactly when some line gives it, and a later line for the same key wins |
| MaintScripts.RewriteUrl | scripts/cleanup_db_connections.py:29 | a URL with neither the asyncpg scheme nor `/mobius_chat` is left unchanged |
| MaintScripts.RewriteTypical | scripts/cleanup_db_connections.py:29 | `postgresql+asyncpg://<authority>/mobius_chat` becomes `postgresql://<authority>/postgres` |
| MaintScripts.CleanupOf | scripts/cleanup_db_connections.py:11-29 | a missing `.env` stops first; a missing or empty `CHAT_RAG_DATABASE_URL` stops next; otherwise the rewritten URL is used |
| MaintScripts.PlanCleanup | scripts/cleanup_db_connections.py:11-29 | the script's steps reach exactly the specified outcome |
| Calibration.StudioMaxRawParams | mobius-qa/retrieval-eval-studio/app/main.py:835-846 | the studio fit as written: no present scores give the identity |
| Calibration.StudioMaxRawParamsFixed | mobius-qa/retrieval-eval-studio/app/main.py:835-846 | the corrected studio fit: no present scores give the identity (its slope is proved positive by StudioFixedSlopePositive) |
| Gold.ParentSetLoneString | mobius-qa/retrieval-eval-studio/app/main.py:797-801 | a lone string gold counts as a one-element list holding it |
| Gold.ParentSetAppend | mobius-qa/retrieval-eval-studio/app/main.py:797-801 | the parent set of a list is the union over its parts, so the order of the list does not matter |
| Gold.ParentSetFalsy | mobius-qa/retrieval-eval-studio/app/main.py:797-801 | a falsy element adds nothing to the parent set |
| Ranking.ExpectationOfVerdict | mobius-qa/retrieval-eval-studio/app/main.py:898-900 | an explicit `expect_in_manual` decides the expectation; an `out_of_manual` question without it is never expected and is a false positive exactly when it would be answered; any other question is expected and never a false positive |
| Ranking.StudioVerdicts | mobius-qa/retrieval-eval-studio/app/main.py:885-924 | one verdict per question |
| RetrievalEval.KeptQuestions | mobius-qa/retrieval-eval/retrieval_eval.py:41-59 | loading never yields more questions than entries |
| Compare.ReportRows | mobius-qa/retrieval-eval/compare_bm25_vs_hier.py:120-170 | a produced report has one row per distinct question id, each that question's own row, in strictly increasing id order |
| ReloadLexicon.Validate | mobius-qa/lexicon-maintenance/app/scripts/reload_clean_lexicon.py:426-435 | the validation loop passes exactly when every kind is known, no (kind, code) repeats and every parent is defined (before its child in the strict reading), and a reported problem belongs to some entry |
| Hier.EmitHierRows | mobius-qa/retrieval-eval-studio/app/main.py:1328-1346 | the loop emits exactly the specified neighbour rows |
| RunSummary.Summarize | mobius-qa/retrieval-eval-studio/app/main.py:1557-1615 | the loop builds exactly the specified summary |
| Text.Lines | mobius-qa/retrieval-eval-studio/app/main.py:1045 | `splitlines()`: no line holds a line break |
| Text.LinesCrLf | mobius-qa/retrieval-eval-studio/app/main.py:1045 | `\r\n` and `\n` both end one line, so CRLF text splits into the same lines as LF text |
| Requests.CleanListSpec | mobius-qa/lexicon-maintenance/app/main.py:1110 | the cleaned id list holds exactly the stripped non-empty entries, and is empty exactly when every entry is blank |
| Requests.PutAt | mobius-qa/lexicon-maintenance/app/main.py:1169-1175 | `d[k] = v` on an insertion-ordered dict: keys stay distinct, an existing key takes the value in place, a new one goes at the end, no other entry changes |
| Requests.PutKeys | mobius-qa/lexicon-maintenance/app/main.py:1169-1175 | after `d[k] = v` the keys are the old keys and `k` |
| Requests.PutRowsKeys | mobius-qa/lexicon-maintenance/app/main.py:1169-1175 | `id_to_norm` has distinct keys, and its keys are exactly the non-empty ids among the rows |
| Requests.PutRowsValues | mobius-qa/lexicon-maintenance/app/main.py:1169-1175 | each id in `id_to_norm` holds the phrase of the last row with that id |
| Requests.DictGetAt | mobius-qa/lexicon-maintenance/app/main.py:1250-1252 | `dict.get` of a key present in a dict with distinct keys returns that entry's value |
| Requests.AppendAt | mobius-qa/lexicon-maintenance/app/main.py:1226-1229 | `setdefault(k, []).append(x)`: keys stay distinct, the list under `k` gains `x` at its end or `(k, [x])` is added last, nothing else changes |
| Requests.AppendKeys | mobius-qa/lexicon-maintenance/app/main.py:1226-1229 | appending under `k` adds `k` to the keys and no other key |
| Requests.GroupByKeys | mobius-qa/lexicon-maintenance/app/main.py:1226-1229 | `by_norm` has distinct keys, no empty group, and a group for every id's phrase key |
| Requests.GroupByMembers | mobius-qa/lexicon-maintenance/app/main.py:1226-1229 | an id is in a group exactly when it is in `id_to_norm` with a phrase whose key is the group's |
| Requests.GroupByDistinct | mobius-qa/lexicon-maintenance/app/main.py:1226-1229 | when the ids are distinct, no group lists an id twice |
| BulkReview.RequestedIdsSpec | mobius-qa/lexicon-maintenance/app/main.py:1109-1139 | the ids are the cleaned `id_list` when it has a non-blank entry, and the ids are empty exactly when neither `id_list` nor the `normalized_list` fallback yields one |
| BulkReview.CheckReviewSpec | mobius-qa/lexicon-maintenance/app/main.py:1109-1158 | each of the four 400 refusals (no ids, bad state, no kind override, no code map) happens exactly in its case and in the handler's order; an accepted request carries the ids, the state and, when approving, the override and a non-empty code map |
| BulkReview.IdToNormLoop | mobius-qa/lexicon-maintenance/app/main.py:1169-1175 | the loop builds exactly the `id_to_norm` dict whose keys and values `Requests.PutRowsKeys` and `Requests.PutRowsValues` describe |
| BulkReview.GroupLoop | mobius-qa/lexicon-maintenance/app/main.py:1226-1229 | the loop builds exactly the `by_norm` grouping described by `Requests.GroupByKeys` and `Requests.GroupByMembers` |
| BulkReview.StrongAliasIs | mobius-qa/lexicon-maintenance/app/main.py:208-236 | adding a strong alias keeps the old strong list as a prefix and puts the phrase in it |
| BulkReview.AliasedSpec | mobius-qa/lexicon-maintenance/app/main.py:1195-1205 | an aliased existing tag is active, holds the phrase as a strong phrase and keeps every strong phrase it had |
| BulkReview.NewSpecStrong | mobius-qa/lexicon-maintenance/app/main.py:1206-1211 | a new tag's only strong phrase is the approved phrase |
| BulkReview.ApproveLoop | mobius-qa/lexicon-maintenance/app/main.py:1184-1212 | the approval loop computes exactly the specified fold over the distinct phrases |
| BulkReview.ApproveOneSpec | mobius-qa/lexicon-maintenance/app/main.py:1184-1212 | one approved phrase extends the lexicon; a phrase with a usable mapping becomes an active strong phrase of its tag, the only tag touched; an unmapped one changes nothing; only a new tag can be blocked |
| BulkReview.AliasExtends | mobius-qa/lexicon-maintenance/app/main.py:1195-1205 | aliasing an existing tag extends the lexicon and makes the phrase a strong phrase of it |
| BulkReview.NewTagExtends | mobius-qa/lexicon-maintenance/app/main.py:1206-1211 | inserting a new tag extends the lexicon and makes the phrase a strong phrase of it |
| BulkReview.ApprovalsSpec | mobius-qa/lexicon-maintenance/app/main.py:1184-1213 | unless blocked, the whole loop extends the lexicon and leaves every mapped phrase an active strong phrase of its tag |
| BulkReview.ApprovalsBlockedAt | mobius-qa/lexicon-maintenance/app/main.py:1178-1212 | a blocked loop stopped at some phrase: the lexicon it reports is the one the loop over the earlier phrases left, and that phrase is the one refused |
| BulkReview.ApprovalsBlocked | mobius-qa/lexicon-maintenance/app/main.py:1178-1212 | a block keeps what the earlier phrases committed: the reported lexicon extends the original and holds every earlier mapped phrase as an active strong phrase |
| BulkReview.ErrorsLoop | mobius-qa/lexicon-maintenance/app/main.py:1250-1252 | the loop lists exactly one error per requested id, with its phrase or "" |
| BulkReview.UpdatesLoop | mobius-qa/lexicon-maintenance/app/main.py:1253-1268 | the loop produces exactly one update and one catalog row per phrase group |
| BulkReview.ReviewBulkRun | mobius-qa/lexicon-maintenance/app/main.py:1109-1276 | the handler computes exactly the specified reply |
| BulkReview.ReviewBulkOutcome | mobius-qa/lexicon-maintenance/app/main.py:1109-1276 | a refused request reports the check's refusal; a reply carries a revision (the next one) exactly when approving; a non-approving review leaves the lexicon alone; with no row changed every requested id is an error and nothing is updated, otherwise there are no errors and one catalog row per update |
| BulkReview.ReviewBulkBlocked | mobius-qa/lexicon-maintenance/app/main.py:1178-1212 | a blocked request reports the QA lexicon as the approve loop left it at the refused phrase (the earlier phrases' writes are committed, autocommit) |
| BulkReview.ReviewBulkGroups | mobius-qa/lexicon-maintenance/app/main.py:1226-1268 | with rows changed, the updates partition the found ids by phrase key: distinct keys, no empty update, no id twice, an id in an update exactly when its key is the update's, every found id covered, and the catalog key cut to 500 characters |
| BulkReview.UpdatesPartition | mobius-qa/lexicon-maintenance/app/main.py:1226-1268 | the per-group updates and catalog rows built from distinct ids partition them by phrase key |
| BatchOps.OpNames | mobius-qa/lexicon-maintenance/app/main.py:1696 | the operation names render and parse back, and an unknown name is reported as given |
| BatchOps.Collect | mobius-qa/lexicon-maintenance/app/main.py:1691-1849 | the batch loop's results hold each operation's report at its own index, and its writes are each step's writes in order |
| BatchOps.ResultCounts | mobius-qa/lexicon-maintenance/app/main.py:1868-1873 | the failed count never exceeds the results, and is zero exactly when every result is ok |
| BatchOps.Committed | mobius-qa/lexicon-maintenance/app/main.py:1682-1687 | the writes kept after an error are a prefix of the operation's writes, no longer than the writes before the raising statement, and never the last one |
| BatchOps.WithPhraseSpec | mobius-qa/lexicon-maintenance/app/main.py:1755-1757 | appending a phrase unless present up to case keeps the list as a prefix, adds at most one entry, leaves the list unchanged exactly when the phrase was there, and is idempotent |
| BatchOps.AliasSpecSpec | mobius-qa/lexicon-maintenance/app/main.py:1752-1757 | the aliased spec's strong list starts with the first non-empty of strong, legacy and alias phrases and holds the phrase; every other key is kept; aliasing again changes nothing |
| BatchOps.ExistingSpecSpec | mobius-qa/lexicon-maintenance/app/main.py:1805-1812 | creating an existing tag appends the phrase to its strong list, keeps its description or fills in the given one, and keeps every other key |
| BatchOps.NewTagSpecSpec | mobius-qa/lexicon-maintenance/app/main.py:1795-1797 | a new tag's only strong phrase is the candidate phrase; it has a description exactly when one was given |
| BatchOps.ApplyOperationsRun | mobius-qa/lexicon-maintenance/app/main.py:1660-1876 | the handler computes exactly the specified reply |
| BatchOps.ApplyOperationsSpec | mobius-qa/lexicon-maintenance/app/main.py:1671-1876 | a missing or empty batch is refused (400); otherwise there is one result per operation, at its index, failed and applied counts add up to the batch, the status is "ok" exactly when nothing failed, and the revision is bumped exactly when some alias or creation succeeded, else 0 |
| BatchOps.ApplyStepOk | mobius-qa/lexicon-maintenance/app/main.py:1691-1859 | an operation succeeds only when it is an object with a phrase and ids naming one of the three triage operations, with no database error and a changed candidate row; a non-object, a blank phrase, no ids or an unknown name fail without writing; a database error fails the operation and keeps exactly the writes the error-free operation would have issued before the raising statement (autocommit: no rollback) |
| BatchOps.RejectStepOk | mobius-qa/lexicon-maintenance/app/candidate_ops.py:353-394 | a rejection marks the ids rejected with the reason and succeeds exactly when no error was raised and a row changed; only then the catalog records the rejection, with no proposed tag; otherwise it reports the helper's error or `no_rows_updated`; an error keeps the writes issued before it |
| BatchOps.AliasStepOk | mobius-qa/lexicon-maintenance/app/main.py:1731-1785 | an alias succeeds exactly when the target is well formed, the tag is found and a row changed; a malformed target writes nothing; a missing tag is reported by name; once found, the tag is rewritten and the ids marked absorbed even if no row changes; a success adds the catalog row and names the resolved tag; a database error keeps the writes issued before it |
| BatchOps.CreateStepOk | mobius-qa/lexicon-maintenance/app/main.py:1786-1844 | a creation succeeds exactly when kind and code are well formed and a row changed; an existing tag is updated and a missing one inserted, the ids are marked approved, and the note says which; a database error keeps the writes issued before it |
| BatchOps.AliasRaisedAfterRewrite | mobius-qa/lexicon-maintenance/app/main.py:1765-1776 | an alias whose candidate update raised leaves the tag's spec rewritten while reporting failure, so it does not count towards the revision bump |
| BatchOps.HealthFixApplyRun | mobius-qa/lexicon-maintenance/app/main.py:2753-2951 | the handler computes exactly the specified reply |
| BatchOps.HealthFixApplySpec | mobius-qa/lexicon-maintenance/app/main.py:2758-2951 | a missing or empty batch is refused (400); otherwise one result per operation at its index, the status is "ok" exactly when nothing failed, and the revision is bumped whatever happened |
| BatchOps.FixStepOk | mobius-qa/lexicon-maintenance/app/main.py:2771-2943 | a fix succeeds only for an object naming one of the five fix operations with a known kind and no error; any other name is "Unknown operation" without a code; a failed fix writes nothing except a rename that matched no row and, after an error, exactly the writes the error-free fix would have issued before the raising statement |
| BatchOps.FixCreateOk | mobius-qa/lexicon-maintenance/app/main.py:2781-2810 | a creation is refused with the structure rules' verdict exactly when they fail; a success reactivates an existing tag or inserts a new one, with the request's spec and parent |
| BatchOps.FixUpdateOk | mobius-qa/lexicon-maintenance/app/main.py:2812-2840 | a missing tag is reported; a success writes the stored spec overlaid by the request's (its keys win, every other stored key kept) after it passed the structure rules under the stored parent |
| BatchOps.FixDeleteOk | mobius-qa/lexicon-maintenance/app/main.py:2842-2856 | a deletion promotes the tag's children before deleting it and reports the rows deleted; an error after the promotion leaves the children promoted and the tag in place |
| BatchOps.FixMergeOk | mobius-qa/lexicon-maintenance/app/main.py:2858-2903 | a merge succeeds exactly when both tags are found; a failed merge writes nothing unless an error followed the target's rewrite, which then stays, possibly with the children moved, and the source is not deleted |
| BatchOps.FixMergeSpec | mobius-qa/lexicon-maintenance/app/main.py:2858-2903 | the merged target keeps its strong list in front and gains each non-empty source phrase it lacked, once; every other key is kept; the source's children move to the target and the source is deleted |
| BatchOps.FixMergeIntoItself | mobius-qa/lexicon-maintenance/app/main.py:2858-2903 | merging a tag into itself is reported as a success whose last write deletes the tag |
| BatchOps.FixMoveOk | mobius-qa/lexicon-maintenance/app/main.py:2905-2927 | a rename succeeds exactly when it matched a row, and the children then follow; one that matched nothing is reported as a missing tag; an error after a matching rename leaves the tag renamed and its children under the old code |

## Left out

- Regular expressions, YAML and JSON parsing, the BM25 scorer, embeddings, the vector search, the language models and every database query are parameters or input data; the model states what is done with their answers.
- Floating-point evaluation: the sigmoid itself, logits and `ln 3` are parameters or constants over `real`; `int(n * 0.9)`, `round(p * (n - 1))` and `int(n * 0.95)` are computed exactly over integers.
- Whitespace is ASCII whitespace and upper/lower case is ASCII only; Unicode case folding and Unicode spaces are not modelled.
- Concurrency: the studio's background threads and run lock, and the connection pool, are not modelled; each run is one sequential call.
- File output (JSONL, CSV, Markdown and YAML files, plots) and console progress are not modelled; the rows and summaries they hold are.
- UUIDs and timestamps: a fresh id is any natural number not yet in the table; clocks are not modelled.
- The lexicon revision lives in a separate meta table; the model keeps it as a field of `LexTable.Lexicon`.
- LexTable.Lexicon.RunCleanup: the tag-specific renames, merges and deletions of phases 1, 2, 4 and 5 and the creation of missing J-kind parents are not modelled; only the generic phases 3, 6 and 7 are.
- LexCleanup.PhraseList: a phrase field holding a JSON object is treated as an error; Python would iterate its keys.
- RunStudioBm25 and StudioBm25Eval: the run fits the studio sigmoid with the corrected `Calibration.StudioMaxRawParamsFixed`, not the "p90" fit that main.py:881 computes, which has a negative slope for two questions (see Findings); `Calibration.StudioMaxRawParams` models the fit as written.
- PlanSpec, PlanOf, Generate and AutoGenerate: the auto-generate plan uses the corrected `BucketCountsChecked`, which refuses counts larger than `n_total` with 400; as written, main.py:543-550 accepts `{"n_total": 1}` and plans 4 questions (see Findings, `QuestionImport.BucketCounts` is the as-written half).
- UpsertTag: a new tag that fails the structure rules is answered 400 through the corrected `HandlerStatus`; as written the handler answers 500 (see Findings, `LexTable.HandlerStatusAsWritten`).
- Reload: the reload validates with the corrected `ValidateEntries`, which looks a parent up before recording the code; the loop as written (`ReloadLexicon.ValidateAsWritten`) also lets an entry name itself as its parent (see Findings).
- ParseRptDf, ParseNmrcDf, ParseAlphaDf, ParseRptPositional, ParseNmrcPositional, ParseAlphaPositional, ParseFiles and ParseHcrisZip: the parsers read a NaN field as missing (`CostParse.Clean`); as written, an empty key field read as NaN is kept with key "nan" (see Findings, `CostParse.NanKeyKept`).
- ComparePeers: the rank is the corrected one, in which tied peers share a rank; as written, tied peers get consecutive ranks in sort order (see Findings, `CostSkills.RankAsWritten`).
- QuestionKept: a truthy field that is not a string (YAML `id: 7`) is taken by its text; Python's `.strip()` raises AttributeError on it and aborts the load.
- QuestionOf and LoadQuestions: the same holds for the id, intent and bucket of a question; the model has no AttributeError outcome for a single entry.
- GroupSpec: the per-question groups are sorted stably by rank; pandas `sort_values` uses an unstable sort by default, so rows with equal ranks may come out in another order.
- HierGoldSet and SummaryParentIds: a `parent_metadata_ids` value that is neither a string nor a list (a number, a mapping) gives the empty set; Python iterates a mapping's keys and raises TypeError on a number.
- RunSettingsSpec: a `top_k` or `limit_questions` value that `int()` cannot parse raises in the source; the model takes the settings as already parsed integers.
- Adjudicator: the LLM provider call is a parameter holding its reply or the exception it raised; the exception's text stands for `str(e)`.
- ChatBot: HTTP calls, the clock and `json.loads` are parameters; the stream is a sequence of decoded chunks with one clock reading each, and `asyncio.sleep` is replaced by the delay it would wait.
- Email: the Gmail API, the SMTP connection and the LLM crafter are parameters holding their outcome; the MIME message itself is not built.
- CostParse: reading CSV text into cells (pandas `read_csv`), date and number parsing are parameters; the zip archive is a list of member names with their tables.
- CostSkills: every BigQuery query is an input holding the rows it returns; the `ORDER BY` preferences of `get_report` are not modelled.
- Landing: HTTP probes, `subprocess.Popen`, the `lsof` port lookup and the signals it sends, and the file system are parameters or fields of `Landing.Host`; the HTML page and the script endpoints' processes are not modelled beyond their replies.
- MaintScripts: the database queries of the inventory and listing scripts are inputs, and the connection the clean-up script opens and closes is not modelled.
- Adjudicator.StrRepr: characters from U+0100 up are written as they are; Python escapes those its Unicode database calls non-printable (line and paragraph separators, format characters, unassigned code points), and that database is not part of this model.
- BulkReview.MapText: a `tag_code_map` value that is a list or an object counts as absent; the source passes `str(mapped)`, Python's rendering of that list or dict, on to `_parse_kind_code`, and that rendering is not modelled.
- DbUrl: `urlparse` is modelled for the `scheme://netloc/path?query#fragment` shape these scripts see; IPv6 brackets and `params` are not.
- LexConfig: `python-dotenv`'s file syntax is a parameter holding the parsed variables.

## Findings

| source | as written | input that shows it | evidently intended | confidence | as-written member | corrected member |
|---|---|---|---|---|---|---|
| mobius-qa/retrieval-eval-studio/app/main.py:840-844 | the "p90" index `max(0, int(n * 0.9) - 1)` lies below the median index `n // 2` when n = 2 | two questions with maxima 1.0 and 3.0: p50 = 3.0, p90 = 1.0, slope 2.2 / (1.0 - 3.0) < 0, so confidence falls as the score rises | a positive slope: "p90" at or above the median | not executed | Calibration.StudioTwoScoresNegativeSlope | Calibration.StudioFixedSlopePositive |
| mobius-qa/retrieval-eval-studio/app/main.py:543-550 | `n_factual = max(0, …)` is never negative, so the `n_factual < 0` guard cannot fire | `{"n_total": 1}`: 2 canonical + 2 out-of-manual questions are planned for a total of 1 | refuse bucket counts that exceed `n_total` with 400 | not executed | QuestionImport.BucketCountsOverAllocate | QuestionImport.BucketCountsCheckedSum |
| mobius-qa/lexicon-maintenance/app/main.py:442-489 | the bare `except Exception` also catches the validation's `HTTPException(400)` and re-raises it as 500 | PATCH of a new tag with code "Claims" | the 400 reaches the client, as in the merge endpoint (lines 686-687) | not executed | LexTable.PatchValidationMasked | LexTable.HandlerStatus |
| mobius-qa/lexicon-maintenance/app/scripts/reload_clean_lexicon.py:431-433 | the code is added to `codes_by_kind` before the parent test, so the parent test also sees the entry's own code | an entry `d`/`a.b` whose `parent_code` is `a.b` (built by `_entry` without complaint) passes validation | a parent must be defined by an earlier entry of the same kind, as the error message says ("hasn't been defined yet") | not executed | ReloadLexicon.SelfParentAccepted | ReloadLexicon.ValidateEntries |
| mobius-skills/cmhc-cost-report/app/parser.py:188-213 | `x is not None and str(x).strip()` lets the NaN that `read_csv` makes of an empty field through, since `str(nan)` is "nan" | a headerless RPT row of seven fields whose first field is empty is kept with report key "nan" | an empty key field skips the row, as a missing one does | not executed | CostParse.NanKeyKept | CostParse.CleanKeyKept |
| mobius-skills/cmhc-cost-report/app/skills.py:298-300 | the rank is the position in the sorted list, so tied peers get different ranks, against the comment "ties get same rank" | two peers both valued 5.0: ranks 1 and 2 | tied peers share a rank: one more than the number of peers valued strictly higher | not executed | CostSkills.TiesSplit | CostSkills.RankSpec |
| scripts/inventory_chat_rag_state.py:63-64 | `hostport.rpartition(":")` puts a port-less authority into the port part, leaving the host empty, which becomes "localhost" | `postgresql://user@db.example/app` connects to localhost:5432 (the same split is at scripts/list_documents_with_tags.py:60-61) | a host without a port is kept as the host, with port 5432 | not executed | DbUrl.HostWithoutPortLost | DbUrl.HostWithoutPortKept |
