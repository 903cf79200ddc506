# Collocation extraction and a naive-Bayes spam filter, in Dafny

This project models the two statistical text-analysis engines of the
`nlp_scripts` repository and proves properties of them.

- **Collocation extractor** (`collocations.dfy`, module `Collocations`):
  - the part-of-speech tag patterns an n-gram must match, built as the
    products of the adjective and noun tag lists (28 bigram patterns, 212
    trigram patterns);
  - the filter `valid_collocation`, which rejects tokens with punctuation and
    the bare token `s`, and raises for lengths other than 2 and 3;
  - `frequency_collocations`, which counts every contiguous n-gram that
    passes the filter under its space-joined phrase. It is modelled as a
    class method over the extractor's result table;
  - `sort_dict`, the descending top-k ranking;
  - `distinguishing_terms`, which splits a corpus, builds the bigram table of
    each part and lists the phrases that one part lacks or that take more
    than 80 per cent of the combined count.
- **Spam filter** (`spam_filter.dfy`, module `SpamFilter`):
  - the class `Classifier` and its counters: feature totals, label totals,
    feature-label pairs and the number of training calls;
  - `train`, a method with loops over the labels and the features;
  - the maximum-likelihood feature probability;
  - the smoothed (weighted) probability;
  - the document probability, a loop computing a product;
  - the label score;
  - `classify`, in two forms: corrected, and as written (see Findings).

The part-of-speech tagger is an external collaborator. It is a function
parameter (`Tagger`) that gives the tag of each position of an n-gram.
The two files are read under different Python versions:

- `collocations.py` is read as Python 3.7 or later. Its dictionaries keep
  insertion order, and `/` is true division, as at collocations.py:150 and
  collocations.py:156. The count tables are association lists
  (`seq<Item>`) kept in insertion order.
- `classifiers/spam_filter.py` is read as Python 2, because of the
  `lambda (k,v)` at spam_filter.py:104. There, `self.labels.keys()` comes
  back in hash order. The model keeps the label table as a `map` plus a
  sequence of its keys in first-seen order. That order is the model's own
  choice, and it only affects how labels with equal scores are ordered.

Python floats are modelled as exact `real`s.

## Model

| member | source | states |
|---|---|---|
| Collocations.ExtendLength | nlp_scripts/collocations.py:13-21 | a product step has one pattern per prefix and tag |
| Collocations.ExtendMember | nlp_scripts/collocations.py:13-21 | `p + [t]` is produced by a product step iff `p` is a prefix and `t` a tag of the step |
| Collocations.Product2Member | nlp_scripts/collocations.py:13-16 | a pair is in `product(a, b)` iff its first tag is in `a` and its second in `b` |
| Collocations.Product3Member | nlp_scripts/collocations.py:17-21 | a triple is in `product(a, b, c)` iff each tag is in its list |
| Collocations.BigramPatternMember | nlp_scripts/collocations.py:13-16 | a tag pair is a bigram pattern iff it is (adjective or noun, noun) |
| Collocations.TrigramProductsMember | nlp_scripts/collocations.py:17-21 | a triple is in the concatenation of the five products iff it has one of the five shapes |
| Collocations.TrigramPatternMember | nlp_scripts/collocations.py:17-21 | a tag triple is a trigram pattern iff it is adj-adj-noun, adj-noun-noun, noun-adj-noun, noun-noun-noun or noun-IN-noun |
| Collocations.PatternCounts | nlp_scripts/collocations.py:10-21 | there are 28 bigram patterns and 212 trigram patterns |
| Collocations.Overlap | nlp_scripts/collocations.py:85-89 | true iff some character of the first string occurs in the second; false for an empty first string |
| Collocations.ValidCollocation | nlp_scripts/collocations.py:102-116 | the filter fails only with the unsupported-length error, and never for n = 2 or 3; its full meaning is given by ValidCollocationCases, BigramAcceptance and TrigramAcceptance |
| Collocations.ValidCollocationCases | nlp_scripts/collocations.py:102-116 | a candidate with punctuation or a bare `s` among its first n tokens is rejected for every n; a clean candidate raises the unsupported-length error iff n is neither 2 nor 3 |
| Collocations.BigramAcceptance | nlp_scripts/collocations.py:102-110 | for n = 2 the filter answers, and accepts iff the candidate is clean and its tags are (adjective or noun, noun) |
| Collocations.TrigramAcceptance | nlp_scripts/collocations.py:102-114 | for n = 3 the filter answers, and accepts iff the candidate is clean and its tags have one of the five trigram shapes |
| Collocations.BrownFoxAccepted | nlp_scripts/collocations.py:102-117 | `brown/JJ fox/NN` is accepted |
| Collocations.QuickBrownRejected | nlp_scripts/collocations.py:102-117 | `quick/JJ brown/JJ` is rejected: an adjective cannot end a bigram |
| Collocations.BumpLookup | nlp_scripts/collocations.py:68 | incrementing a phrase adds one to its count and leaves every other count unchanged |
| Collocations.BumpKeeps | nlp_scripts/collocations.py:68 | incrementing keeps phrases distinct and counts positive |
| Collocations.TagWindow | nlp_scripts/collocations.py:62-63 | the i-th n-gram has n tokens, the words of the text from position i |
| Collocations.CountsTable | nlp_scripts/collocations.py:61-68 | the count table has distinct phrases and positive counts |
| Collocations.CountsAreOccurrences | nlp_scripts/collocations.py:61-68 | each phrase's count is the number of n-grams that pass the filter and join to it; a phrase is present iff it occurs at least once |
| Collocations.Collocation.constructor | nlp_scripts/collocations.py:25-30 | the extractor holds the given tokens and no results |
| Collocations.Collocation.FrequencyCollocations | nlp_scripts/collocations.py:53-70 | fails iff filtering some n-gram raises, with the unsupported-length error and results unchanged; otherwise stores the ranked count table under n and changes no other entry |
| Collocations.CountCollocations | nlp_scripts/collocations.py:61-68 | the loop over all n-grams yields the count table, or the error iff some n-gram raises |
| Collocations.CountWindow | nlp_scripts/collocations.py:62-68 | one n-gram: an error iff the filter raises; otherwise its phrase is incremented iff it is accepted |
| Collocations.Phrase | nlp_scripts/collocations.py:65-68 | the word-by-word concatenation with the trailing space cut is the first n words joined by single spaces |
| Collocations.RankDescending | nlp_scripts/collocations.py:74-75 | the reversed ascending sort is a permutation, by non-increasing count, keeping keys distinct |
| Collocations.RankedIsTop | nlp_scripts/collocations.py:72-82 | the ranking is by non-increasing count, draws only items of the table, keeps keys distinct, and no item left out counts more than one kept |
| Collocations.TakeFirst | nlp_scripts/collocations.py:76-82 | the append loop that stops at the end of the list returns the first `top` items, or all of them, or none when `top` is not positive |
| Collocations.SortDict | nlp_scripts/collocations.py:72-82 | returns the top-`top` ranking of the table |
| Collocations.Cut | nlp_scripts/collocations.py:140-145 | list slicing at `split`: within the list when non-negative, from the end when negative, clamped |
| Collocations.BigramTable | nlp_scripts/collocations.py:140-145 | the stored bigram table of a part has at most 100 entries, distinct phrases and positive counts |
| Collocations.ShareThreshold | nlp_scripts/collocations.py:150 | `v / (v + w) > 0.8` in exact division iff `v > 4 * w` |
| Collocations.DistinguishingMember | nlp_scripts/collocations.py:148-153 | a phrase is listed for a part iff that part has it and the other part lacks it or counts it less than a quarter as often |
| Collocations.DistinguishingSplit | nlp_scripts/collocations.py:148-160 | a phrase of one part only is listed for that part alone; no phrase is listed for both parts |
| Collocations.SelectDistinguishing | nlp_scripts/collocations.py:148-153 | the loop over one part's table lists exactly its distinguishing phrases, in table order |
| Collocations.HalfTable | nlp_scripts/collocations.py:140-142 | running the extractor with its defaults on a part gives that part's bigram table |
| Collocations.DistinguishingTerms | nlp_scripts/collocations.py:127-160 | the two lists are the distinguishing phrases of each part against the other, after splitting at `split` |
| SpamFilter.IncAllCount | nlp_scripts/classifiers/spam_filter.py:27-29 | counting a list adds each key's multiplicity to its count |
| SpamFilter.IncPairsCount | nlp_scripts/classifiers/spam_filter.py:25-26 | counting a document under a label adds each feature's multiplicity to that label's pair count only |
| SpamFilter.TrainFeaturesCount | nlp_scripts/classifiers/spam_filter.py:24-27 | training adds, for every feature, its multiplicity in the document times the number of labels |
| SpamFilter.TrainPairsCount | nlp_scripts/classifiers/spam_filter.py:24-26 | training adds to each feature-label pair the product of their multiplicities |
| SpamFilter.TrainSummed | nlp_scripts/classifiers/spam_filter.py:24-27 | training keeps each feature total equal to the sum of its pair counts |
| SpamFilter.TrainListed | nlp_scripts/classifiers/spam_filter.py:24-29 | training keeps the label order listing exactly the known labels, each once |
| SpamFilter.TrainPairsWithin | nlp_scripts/classifiers/spam_filter.py:24-29 | with no repeated feature, no pair count exceeds its label's total |
| SpamFilter.TrainLabelsWithin | nlp_scripts/classifiers/spam_filter.py:24-30 | with no repeated label, no label total exceeds the number of training calls |
| SpamFilter.TrainConsistent | nlp_scripts/classifiers/spam_filter.py:24-30 | one training call keeps the counters consistent |
| SpamFilter.Classifier.constructor | nlp_scripts/classifiers/spam_filter.py:5-9 | all counters start empty and the call count at zero |
| SpamFilter.Classifier.Train | nlp_scripts/classifiers/spam_filter.py:24-30 | the counters become their training-function images of the old ones, the call count grows by one, and consistency is kept |
| SpamFilter.Classifier.CountDocument | nlp_scripts/classifiers/spam_filter.py:24-29 | the nested loops count every feature occurrence under every label occurrence and every label occurrence once |
| SpamFilter.CountFeatures | nlp_scripts/classifiers/spam_filter.py:25-27 | the inner loop counts every feature occurrence in the totals and under the label |
| SpamFilter.Classifier.PairAtMostFeature | nlp_scripts/classifiers/spam_filter.py:24-27 | a pair count never exceeds the feature's total |
| SpamFilter.RawProbability | nlp_scripts/classifiers/spam_filter.py:49-53 | non-negative, and zero iff the pair count or the label count is zero |
| SpamFilter.Classifier.FeatureProbability | nlp_scripts/classifiers/spam_filter.py:49-53 | non-negative, and zero iff the pair was never seen or the label has no count |
| SpamFilter.Classifier.FeatureProbabilityRatio | nlp_scripts/classifiers/spam_filter.py:49-53 | for a counted label, the probability times the label count is the pair count |
| SpamFilter.Classifier.FeatureProbabilityAtMostOne | nlp_scripts/classifiers/spam_filter.py:49-53 | at most 1 when no training call listed a feature twice |
| SpamFilter.Smooth | nlp_scripts/classifiers/spam_filter.py:72 | a division by zero iff `weight + total` is zero; exactly `ap` for an unseen feature |
| SpamFilter.Classifier.WeightedProbability | nlp_scripts/classifiers/spam_filter.py:70-72 | a division by zero iff `weight + feature total` is zero; exactly the prior for an unseen feature |
| SpamFilter.Classifier.WeightedProbabilityMean | nlp_scripts/classifiers/spam_filter.py:70-72 | the result is the weighted mean of the prior and the raw probability |
| SpamFilter.Classifier.WeightedBetween | nlp_scripts/classifiers/spam_filter.py:70-72 | with a positive weight the result lies between the prior and the raw probability |
| SpamFilter.SmoothedFraction | nlp_scripts/classifiers/spam_filter.py:55-72 | with the defaults 1.0 and 0.5 the result is a fraction of two positive integers |
| SpamFilter.Classifier.DefaultWeightedFraction | nlp_scripts/classifiers/spam_filter.py:55-72 | with the defaults, each feature's weighted probability is a positive integer fraction, at most 1 when no feature was repeated |
| SpamFilter.Classifier.DocumentScore | nlp_scripts/classifiers/spam_filter.py:86-89 | the empty document scores 1, the initial value of the product |
| SpamFilter.Classifier.DocumentProbability | nlp_scripts/classifiers/spam_filter.py:86-89 | the loop's running product is the product of the weighted probabilities of the features |
| SpamFilter.Classifier.DocumentScorePositive | nlp_scripts/classifiers/spam_filter.py:86-89 | the document probability is positive |
| SpamFilter.Classifier.DocumentScoreAppend | nlp_scripts/classifiers/spam_filter.py:86-89 | the score of a concatenation is the product of the scores |
| SpamFilter.Classifier.DocumentScorePermutation | nlp_scripts/classifiers/spam_filter.py:86-89 | feature order does not matter |
| SpamFilter.Classifier.DocumentScoreSingle | nlp_scripts/classifiers/spam_filter.py:86-89 | a one-feature document scores that feature's weighted probability |
| SpamFilter.Classifier.DocumentScoreAtMostOne | nlp_scripts/classifiers/spam_filter.py:86-89 | at most 1 when no feature was repeated |
| SpamFilter.Classifier.Probability | nlp_scripts/classifiers/spam_filter.py:91-96 | returns the label score |
| SpamFilter.Classifier.ProbabilityMeaning | nlp_scripts/classifiers/spam_filter.py:91-96 | zero before any training; positive iff the label was counted; otherwise the document probability times the label's share of training calls |
| SpamFilter.Classifier.ProbabilityFactors | nlp_scripts/classifiers/spam_filter.py:94-96 | after training, the document probability times the label's share of the calls |
| SpamFilter.Classifier.LabelAtMostCalls | nlp_scripts/classifiers/spam_filter.py:29-30 | with no repeated label, a label's count is at most the number of training calls |
| SpamFilter.Classifier.ProbabilityAtMostOne | nlp_scripts/classifiers/spam_filter.py:91-96 | at most 1 when no feature and no label was repeated |
| SpamFilter.Classifier.EmptyDocumentScore | nlp_scripts/classifiers/spam_filter.py:91-96 | the empty document scores each label at its share of the training calls |
| SpamFilter.InsertByScore | nlp_scripts/classifiers/spam_filter.py:104 | inserting into a list sorted by descending score keeps it sorted and is a permutation of the list plus the entry |
| SpamFilter.SortByScore | nlp_scripts/classifiers/spam_filter.py:104 | a permutation sorted by descending score |
| SpamFilter.TakeCount | nlp_scripts/classifiers/spam_filter.py:104 | `[:limit]` never keeps more than the list; with a non-negative `limit` it keeps the first `limit` entries, or all when there are fewer |
| SpamFilter.TopIsBest | nlp_scripts/classifiers/spam_filter.py:104 | the chosen entries are entries of the list, best first, with distinct names, and none left out scores higher than one kept |
| SpamFilter.Classifier.Scores | nlp_scripts/classifiers/spam_filter.py:102-103 | one entry per label in order, scored by the label score |
| SpamFilter.Classifier.RankedIsTop | nlp_scripts/classifiers/spam_filter.py:98-104 | the ranking holds known labels with their scores, sorted, distinct, with no known label left out scoring higher than one kept, and is empty before any training |
| SpamFilter.Classifier.Classify | nlp_scripts/classifiers/spam_filter.py:98-104 | the corrected classify returns the ranking of all known labels truncated to `limit` |
| SpamFilter.Classifier.SpamExample | nlp_scripts/classifiers/spam_filter.py:98-104 | after training once on `["money"]` labelled `spam`, `["money"]` ranks `spam` at 3/4 |
| SpamFilter.ClassifyExample | nlp_scripts/classifiers/spam_filter.py:98-104 | a concrete scenario: the corrected classify gives `[("spam", 0.75)]`, and the code as written raises NameError |
| SpamFilter.Classifier.ClassifyAsWrittenFails | nlp_scripts/classifiers/spam_filter.py:101-104 | the code as written always raises NameError and never yields the ranking |
| SpamFilter.RepeatedFeatureExample | nlp_scripts/classifiers/spam_filter.py:49-53 | a feature listed twice in one document gets feature probability 2 |
| SpamFilter.RepeatedLabelExample | nlp_scripts/classifiers/spam_filter.py:91-96 | a label listed twice in one training call gives the empty document a score of 2 |

## Left out

- `t_squared_collocations` and `t_statistic` (collocations.py:32-51, 119-123) are not modelled. They need a floating-point square root.
- Tokenization of a string passed to the `Collocation` constructor is not modelled. The NLTK word tokenizer is an external library, so the constructor takes a token sequence.
- The NLTK tagger is a function parameter. N-grams are modelled as the contiguous windows of the text.
- Collocations.Collocation.FrequencyCollocations: requires `n >= 1`, because the NLTK n-gram behaviour for `n <= 0` is not modelled.
- Floating-point rounding is not modelled. Every score is an exact real, and the 0.8 share test uses exact division. Under Python 2 integer division, the shared-key branch of `distinguishing_terms` would never list a phrase.
- Reading a missing key from a `defaultdict` inserts it, and this side effect is not modelled. In the source, `probability` of an unseen label adds that label with count 0, so a later `classify` would also rank it. The model's reads leave the counters unchanged.
- Tie order among equal scores in `classify` is not the source's. Under Python 2, `sorted(..., reverse=True)` keeps equal scores in the hash order of `self.labels.keys()`, which the model cannot reproduce. The model ranks the labels from its own first-seen order with a descending insertion sort. Its proved properties do not speak about the order of equal scores.
- Tie order among equal counts in `sort_dict` follows the model's sort. The proved ranking properties do not speak about it either.
- `classify` as written uses Python 2 syntax: the tuple-unpacking `lambda (k,v)` is a syntax error under Python 3. The model treats the file as Python 2 source.
- A training call whose label argument is a bare string is not modelled. The source would then count each character of the string as a label. The model takes a sequence of labels.
- The remaining repository files are not part of this model: other scripts, `setup.py` and the packaging.

In three places the code behaves differently from what the classifier and the filter are meant to promise; the model follows the code.

- A feature listed twice in one training document makes `feature_probability` exceed 1. A probability would lie in [0, 1]. See `SpamFilter.RepeatedFeatureExample`. The bound is proved under the side condition that no feature was repeated (`FeatureProbabilityAtMostOne`).
- A label listed twice in one training call makes a label's count exceed the number of calls, so a label score can exceed 1. See `SpamFilter.RepeatedLabelExample`.
- `valid_collocation` raises for an unsupported `n` only after the punctuation and `s` checks pass. A candidate that fails those checks is rejected with `False` for every `n` (`Collocations.ValidCollocationCases`).

## Findings

| source | as written | input that shows it | evidently intended | confidence | as-written member | corrected member |
|---|---|---|---|---|---|---|
| nlp_scripts/classifiers/spam_filter.py:101-104 | `classify` binds `probability = {}`, then stores into and returns from `probs`, a name it never binds, so every call raises NameError | a classifier trained once on `["money"]` labelled `spam`, then `classify(["money"])`: NameError instead of `[("spam", 0.75)]` | build the score table in the bound dictionary and return its entries sorted by descending score, truncated to `limit` | not executed | SpamFilter.Classifier.ClassifyAsWritten (exhibited by SpamFilter.Classifier.ClassifyAsWrittenFails and SpamFilter.ClassifyExample) | SpamFilter.Classifier.Classify (proved by SpamFilter.Classifier.RankedIsTop) |
