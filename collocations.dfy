/**
 * Frequency-based collocation extraction over a tokenized text: a
 * part-of-speech pattern filter for tagged n-grams, a counter over the
 * contiguous windows of the text, a descending top-k ranking of the counts,
 * and a comparison of the bigram counts of two parts of a corpus.
 *
 * The part-of-speech tagger is an external collaborator and is passed in as
 * a function.
 */
module Collocations {

  type Token = string
  type Tag = string

  /** A token paired with the part-of-speech tag the tagger gave it. */
  datatype TaggedToken = TaggedToken(word: Token, tag: Tag)

  /**
   * The part-of-speech tagger: given an n-gram and a position in it, the tag
   * of the token at that position. Tagging sees the n-gram alone, as the
   * extractor tags each n-gram separately.
   */
  type Tagger = (seq<Token>, nat) -> Tag

  /** The error `valid_collocation` raises for an unsupported n-gram length. */
  datatype Error = UnsupportedLength(n: int)

  datatype Result<T> = Ok(value: T) | Err(error: Error)

  datatype Outcome = Pass | Fail(error: Error)

  /* ---------------------------------------------------------------------
   * Tag patterns
   * --------------------------------------------------------------------- */

  const AdjTags: seq<Tag> := ["JJ", "JJR", "JJS"]
  const NounTags: seq<Tag> := ["NN", "NNP", "NNPS", "NNS"]
  const Preposition: Tag := "IN"
  const Punctuation: string := "!?\".-,:;"

  /** The tuples `p + [t]` for every tag `t` of `tags`, in order. */
  function ExtendOne(p: seq<Tag>, tags: seq<Tag>): (r: seq<seq<Tag>>)
    ensures |r| == |tags|
  {
    if tags == [] then [] else [p + [tags[0]]] + ExtendOne(p, tags[1..])
  }

  /**
   * Every tuple `p + [t]` with `p` from `prefixes` and `t` from `tags`, in the
   * order of a Cartesian product: the first prefix with every tag, then the
   * next prefix, and so on.
   */
  function Extend(prefixes: seq<seq<Tag>>, tags: seq<Tag>): seq<seq<Tag>>
  {
    if prefixes == [] then []
    else ExtendOne(prefixes[0], tags) + Extend(prefixes[1..], tags)
  }

  /** There is one extended tuple per prefix and tag. */
  lemma {:induction false} ExtendLength(prefixes: seq<seq<Tag>>, tags: seq<Tag>)
    ensures |Extend(prefixes, tags)| == |prefixes| * |tags|
    decreases |prefixes|
  {
    if prefixes != [] {
      ExtendLength(prefixes[1..], tags);
      assert |prefixes| * |tags| == |tags| + (|prefixes| - 1) * |tags|;
    }
  }

  /** Two tuples extended by one tag are equal iff their prefixes and last tags are. */
  lemma SnocEqual(q: seq<Tag>, p: seq<Tag>, t: Tag, u: Tag)
    ensures q + [t] == p + [u] <==> q == p && t == u
  {
    if q + [t] == p + [u] {
      assert |q| == |p|;
      assert q == (q + [t])[..|q|] && p == (p + [u])[..|p|];
      assert t == (q + [t])[|q|];
    }
  }

  lemma {:induction false} ExtendOneMember(p: seq<Tag>, tags: seq<Tag>, q: seq<Tag>, t: Tag)
    ensures q + [t] in ExtendOne(p, tags) <==> q == p && t in tags
    decreases |tags|
  {
    if tags != [] {
      ExtendOneMember(p, tags[1..], q, t);
      SnocEqual(q, p, t, tags[0]);
      assert t in tags <==> t == tags[0] || t in tags[1..];
    }
  }

  /** `p + [t]` is one of the extended tuples iff `p` is a prefix and `t` one of the tags. */
  lemma {:induction false} ExtendMember(prefixes: seq<seq<Tag>>, tags: seq<Tag>, p: seq<Tag>, t: Tag)
    ensures p + [t] in Extend(prefixes, tags) <==> p in prefixes && t in tags
    decreases |prefixes|
  {
    if prefixes != [] {
      ExtendOneMember(prefixes[0], tags, p, t);
      ExtendMember(prefixes[1..], tags, p, t);
      assert p in prefixes <==> p == prefixes[0] || p in prefixes[1..];
    }
  }

  /** The tags of `a` as a list of one-tag tuples. */
  function Product1(a: seq<Tag>): seq<seq<Tag>>
  {
    Extend([[]], a)
  }

  /** The Cartesian product `a × b` as a list of tag pairs. */
  function Product2(a: seq<Tag>, b: seq<Tag>): seq<seq<Tag>>
  {
    Extend(Product1(a), b)
  }

  /** The Cartesian product `a × b × c` as a list of tag triples. */
  function Product3(a: seq<Tag>, b: seq<Tag>, c: seq<Tag>): seq<seq<Tag>>
  {
    Extend(Product2(a, b), c)
  }

  /** The tag pairs an accepted bigram may carry. */
  const BigramTagPatterns: seq<seq<Tag>> := Product2(AdjTags + NounTags, NounTags)

  /** The tag triples an accepted trigram may carry. */
  const TrigramTagPatterns: seq<seq<Tag>> :=
    Product3(AdjTags, AdjTags, NounTags) +
    Product3(AdjTags, NounTags, NounTags) +
    Product3(NounTags, AdjTags, NounTags) +
    Product3(NounTags, NounTags, NounTags) +
    Product3(NounTags, [Preposition], NounTags)

  predicate IsAdj(t: Tag) { t in AdjTags }
  predicate IsNoun(t: Tag) { t in NounTags }

  /** The five trigram shapes, stated tag by tag. */
  predicate TrigramShape(t1: Tag, t2: Tag, t3: Tag)
  {
    || (IsAdj(t1) && IsAdj(t2) && IsNoun(t3))
    || (IsAdj(t1) && IsNoun(t2) && IsNoun(t3))
    || (IsNoun(t1) && IsAdj(t2) && IsNoun(t3))
    || (IsNoun(t1) && IsNoun(t2) && IsNoun(t3))
    || (IsNoun(t1) && t2 == Preposition && IsNoun(t3))
  }

  lemma {:induction false} Product2Member(a: seq<Tag>, b: seq<Tag>, t1: Tag, t2: Tag)
    ensures [t1, t2] in Product2(a, b) <==> t1 in a && t2 in b
  {
    var none: seq<Tag> := [];
    ExtendMember([none], a, none, t1);
    ExtendMember(Product1(a), b, [t1], t2);
    assert [t1, t2] == [t1] + [t2] && [t1] == none + [t1];
  }

  lemma {:induction false} Product3Member(a: seq<Tag>, b: seq<Tag>, c: seq<Tag>, t1: Tag, t2: Tag, t3: Tag)
    ensures [t1, t2, t3] in Product3(a, b, c) <==> t1 in a && t2 in b && t3 in c
  {
    Product2Member(a, b, t1, t2);
    ExtendMember(Product2(a, b), c, [t1, t2], t3);
    assert [t1, t2, t3] == [t1, t2] + [t3];
  }

  /** A tag pair is a bigram pattern iff it is (adjective or noun, noun). */
  lemma {:induction false} BigramPatternMember(t1: Tag, t2: Tag)
    ensures [t1, t2] in BigramTagPatterns <==> (IsAdj(t1) || IsNoun(t1)) && IsNoun(t2)
  {
    Product2Member(AdjTags + NounTags, NounTags, t1, t2);
  }

  /** `a × b × c` has one triple per choice of tags. */
  lemma Product3Length(a: seq<Tag>, b: seq<Tag>, c: seq<Tag>)
    ensures |Product3(a, b, c)| == |a| * |b| * |c|
  {
    ExtendLength([[]], a);
    ExtendLength(Product1(a), b);
    ExtendLength(Product2(a, b), c);
  }

  /** There are 28 bigram patterns and 212 trigram patterns. */
  lemma PatternCounts()
    ensures |BigramTagPatterns| == 28
    ensures |TrigramTagPatterns| == 212
  {
    ExtendLength([[]], AdjTags + NounTags);
    ExtendLength(Product1(AdjTags + NounTags), NounTags);
    Product3Length(AdjTags, AdjTags, NounTags);
    Product3Length(AdjTags, NounTags, NounTags);
    Product3Length(NounTags, AdjTags, NounTags);
    Product3Length(NounTags, NounTags, NounTags);
    Product3Length(NounTags, [Preposition], NounTags);
  }

  /** The five trigram products, over any adjective tags, noun tags and preposition. */
  lemma {:induction false} TrigramProductsMember(adj: seq<Tag>, noun: seq<Tag>, prep: Tag, t1: Tag, t2: Tag, t3: Tag)
    ensures
      ([t1, t2, t3] in
        Product3(adj, adj, noun) + Product3(adj, noun, noun) + Product3(noun, adj, noun) +
        Product3(noun, noun, noun) + Product3(noun, [prep], noun))
      <==>
      (|| (t1 in adj && t2 in adj && t3 in noun)
       || (t1 in adj && t2 in noun && t3 in noun)
       || (t1 in noun && t2 in adj && t3 in noun)
       || (t1 in noun && t2 in noun && t3 in noun)
       || (t1 in noun && t2 == prep && t3 in noun))
  {
    Product3Member(adj, adj, noun, t1, t2, t3);
    Product3Member(adj, noun, noun, t1, t2, t3);
    Product3Member(noun, adj, noun, t1, t2, t3);
    Product3Member(noun, noun, noun, t1, t2, t3);
    Product3Member(noun, [prep], noun, t1, t2, t3);
  }

  /** A tag triple is a trigram pattern iff it has one of the five shapes. */
  lemma {:induction false} TrigramPatternMember(t1: Tag, t2: Tag, t3: Tag)
    ensures [t1, t2, t3] in TrigramTagPatterns <==> TrigramShape(t1, t2, t3)
  {
    TrigramProductsMember(AdjTags, NounTags, Preposition, t1, t2, t3);
  }

  /* ---------------------------------------------------------------------
   * The filter
   * --------------------------------------------------------------------- */

  /** Whether some character of `s1` occurs in `s2`. */
  function Overlap(s1: string, s2: string): (r: bool)
    ensures r <==> exists c :: c in s1 && c in s2
    ensures s1 == [] ==> !r
  {
    if s1 == [] then false
    else if s1[0] in s2 then true
    else
      assert forall c :: c in s1 <==> c == s1[0] || c in s1[1..];
      Overlap(s1[1..], s2)
  }

  /**
   * None of the first `n` tokens contains a punctuation character or is the
   * bare possessive `s`.
   */
  ghost predicate Clean(candidate: seq<TaggedToken>, n: int)
    requires n <= |candidate|
  {
    forall i :: 0 <= i < n ==>
      candidate[i].word != "s" && forall c :: c in candidate[i].word ==> c !in Punctuation
  }

  /**
   * Whether the first `n` tagged tokens of `candidate` form an acceptable
   * collocation: no token may contain punctuation or be the bare `s`, and
   * the tags must match a bigram pattern (n = 2) or a trigram pattern
   * (n = 3). Any other `n` is an error, raised only once both token checks
   * have passed.
   */
  function ValidCollocation(candidate: seq<TaggedToken>, n: int): (r: Result<bool>)
    requires n <= |candidate|
    ensures r == Err(UnsupportedLength(n)) || r.Ok?
    ensures n == 2 || n == 3 ==> r.Ok?
  {
    if exists i | 0 <= i < n :: Overlap(candidate[i].word, Punctuation) then Ok(false)
    else if exists i | 0 <= i < n :: candidate[i].word == "s" then Ok(false)
    else if n == 2 then Ok([candidate[0].tag, candidate[1].tag] in BigramTagPatterns)
    else if n == 3 then Ok([candidate[0].tag, candidate[1].tag, candidate[2].tag] in TrigramTagPatterns)
    else Err(UnsupportedLength(n))
  }

  /**
   * A candidate with punctuation or a bare `s` among its first `n` tokens is
   * rejected whatever `n` is; a clean one raises the unsupported-length
   * error exactly when `n` is neither 2 nor 3.
   */
  lemma ValidCollocationCases(candidate: seq<TaggedToken>, n: int)
    requires n <= |candidate|
    ensures !Clean(candidate, n) ==> ValidCollocation(candidate, n) == Ok(false)
    ensures ValidCollocation(candidate, n).Err? <==> n != 2 && n != 3 && Clean(candidate, n)
    ensures ValidCollocation(candidate, n).Err? ==> ValidCollocation(candidate, n).error == UnsupportedLength(n)
  {
  }

  /** For bigrams: accepted iff clean and tagged (adjective or noun, noun); never an error. */
  lemma {:induction false} BigramAcceptance(candidate: seq<TaggedToken>)
    requires 2 <= |candidate|
    ensures ValidCollocation(candidate, 2).Ok?
    ensures ValidCollocation(candidate, 2).value <==>
      Clean(candidate, 2) && (IsAdj(candidate[0].tag) || IsNoun(candidate[0].tag)) && IsNoun(candidate[1].tag)
  {
    BigramPatternMember(candidate[0].tag, candidate[1].tag);
  }

  /** For trigrams: accepted iff clean and tagged in one of the five shapes; never an error. */
  lemma {:induction false} TrigramAcceptance(candidate: seq<TaggedToken>)
    requires 3 <= |candidate|
    ensures ValidCollocation(candidate, 3).Ok?
    ensures ValidCollocation(candidate, 3).value <==>
      Clean(candidate, 3) && TrigramShape(candidate[0].tag, candidate[1].tag, candidate[2].tag)
  {
    var tags := [candidate[0].tag, candidate[1].tag, candidate[2].tag];
    ValidCollocationCases(candidate, 3);
    assert Clean(candidate, 3) ==> ValidCollocation(candidate, 3) == Ok(tags in TrigramTagPatterns);
    TrigramPatternMember(candidate[0].tag, candidate[1].tag, candidate[2].tag);
  }

  /** The punctuation characters, as a set. */
  lemma PunctuationChars()
    ensures forall c :: c in Punctuation ==> c in {'!', '?', '"', '.', '-', ',', ':', ';'}
  {
  }

  /** "brown fox", tagged adjective then noun, is accepted. */
  lemma BrownFoxAccepted()
    ensures ValidCollocation([TaggedToken("brown", "JJ"), TaggedToken("fox", "NN")], 2) == Ok(true)
  {
    var brownFox := [TaggedToken("brown", "JJ"), TaggedToken("fox", "NN")];
    assert Clean(brownFox, 2) by {
      PunctuationChars();
      assert forall c :: c in "brown" ==> c in {'b', 'r', 'o', 'w', 'n'};
      assert forall c :: c in "fox" ==> c in {'f', 'o', 'x'};
    }
    assert IsAdj("JJ") && IsNoun("NN");
    BigramAcceptance(brownFox);
  }

  /** "quick brown", tagged adjective then adjective, is rejected. */
  lemma QuickBrownRejected()
    ensures ValidCollocation([TaggedToken("quick", "JJ"), TaggedToken("brown", "JJ")], 2) == Ok(false)
  {
    assert !IsNoun("JJ");
    BigramAcceptance([TaggedToken("quick", "JJ"), TaggedToken("brown", "JJ")]);
  }

  /* ---------------------------------------------------------------------
   * Count tables
   *
   * A count table is the insertion-ordered dictionary from phrase to count,
   * as a list of items with distinct keys.
   * --------------------------------------------------------------------- */

  datatype Item = Item(key: string, count: nat)

  function KeySet(d: seq<Item>): set<string>
  {
    set e | e in d :: e.key
  }

  predicate HasKey(d: seq<Item>, k: string)
  {
    k in KeySet(d)
  }

  /** No key occurs twice: there are as many keys as items. */
  ghost predicate DistinctKeys(d: seq<Item>)
  {
    |KeySet(d)| == |d|
  }

  ghost predicate Positive(d: seq<Item>)
  {
    forall e :: e in d ==> e.count >= 1
  }

  lemma {:induction false} KeySetSize(d: seq<Item>)
    ensures |KeySet(d)| <= |d|
  {
    if d != [] {
      KeySetSize(d[1..]);
      KeySetCons(d[0], d[1..]);
      assert d == [d[0]] + d[1..];
    }
  }

  lemma KeySetCons(x: Item, s: seq<Item>)
    ensures KeySet([x] + s) == {x.key} + KeySet(s)
  {
    assert forall e :: e in [x] + s <==> e == x || e in s;
  }

  /** A list with a head has distinct keys iff the head's key is new and the rest has distinct keys. */
  lemma {:induction false} DistinctKeysCons(x: Item, s: seq<Item>)
    ensures DistinctKeys([x] + s) <==> x.key !in KeySet(s) && DistinctKeys(s)
  {
    KeySetCons(x, s);
    KeySetSize(s);
  }

  /** Rearranging a list keeps its keys, and so its distinctness. */
  lemma KeySetOfPermutation(a: seq<Item>, b: seq<Item>)
    requires multiset(a) == multiset(b)
    ensures KeySet(a) == KeySet(b) && |a| == |b|
    ensures DistinctKeys(a) <==> DistinctKeys(b)
  {
    assert forall e :: e in a <==> e in multiset(a);
    assert forall e :: e in b <==> e in multiset(b);
    assert |a| == |multiset(a)| == |multiset(b)| == |b|;
  }

  /** The count stored under `k`, or 0 when `k` is absent (a default-zero lookup). */
  function Lookup(d: seq<Item>, k: string): (r: nat)
    ensures !HasKey(d, k) ==> r == 0
    ensures DistinctKeys(d) ==> forall e :: e in d && e.key == k ==> r == e.count
  {
    if d == [] then 0
    else
      assert d == [d[0]] + d[1..];
      DistinctKeysCons(d[0], d[1..]);
      KeySetCons(d[0], d[1..]);
      if d[0].key == k then d[0].count
      else Lookup(d[1..], k)
  }

  /**
   * Adds one to the count under `k`, appending `k` with count 1 when it is
   * absent, as incrementing a default-zero dictionary entry does.
   */
  function Bump(d: seq<Item>, k: string): (r: seq<Item>)
    ensures KeySet(r) == KeySet(d) + {k}
  {
    if d == [] then
      KeySetCons(Item(k, 1), []);
      [Item(k, 1)]
    else
      assert d == [d[0]] + d[1..];
      KeySetCons(d[0], d[1..]);
      if d[0].key == k then
        KeySetCons(Item(k, d[0].count + 1), d[1..]);
        [Item(k, d[0].count + 1)] + d[1..]
      else
        var rest := Bump(d[1..], k);
        KeySetCons(d[0], rest);
        [d[0]] + rest
  }

  /** Bumping adds one under `k` and leaves every other key's count as it was. */
  lemma {:induction false} BumpLookup(d: seq<Item>, k: string, k': string)
    ensures Lookup(Bump(d, k), k') == Lookup(d, k') + (if k' == k then 1 else 0)
  {
    if d != [] && d[0].key != k {
      BumpLookup(d[1..], k, k');
    }
  }

  /** Bumping keeps the keys distinct and the counts positive. */
  lemma {:induction false} BumpKeeps(d: seq<Item>, k: string)
    ensures DistinctKeys(d) ==> DistinctKeys(Bump(d, k))
    ensures Positive(d) ==> Positive(Bump(d, k))
  {
    if d != [] {
      assert d == [d[0]] + d[1..];
      DistinctKeysCons(d[0], d[1..]);
      if d[0].key == k {
        DistinctKeysCons(Item(k, d[0].count + 1), d[1..]);
      } else {
        BumpKeeps(d[1..], k);
        DistinctKeysCons(d[0], Bump(d[1..], k));
      }
    }
  }

  /* ---------------------------------------------------------------------
   * Windows of the text
   * --------------------------------------------------------------------- */

  /** The number of contiguous n-grams of `text`. */
  function NumWindows(text: seq<Token>, n: nat): nat
  {
    if |text| >= n then |text| - n + 1 else 0
  }

  /** The `i`-th n-gram of `text`, each token tagged in the context of the n-gram. */
  function TagWindow(text: seq<Token>, n: nat, i: nat, tag: Tagger): (r: seq<TaggedToken>)
    requires 1 <= n && i < NumWindows(text, n)
    ensures |r| == n
    ensures forall j :: 0 <= j < n ==> r[j].word == text[i + j]
  {
    var g := text[i..i + n];
    seq(n, j requires 0 <= j < n => TaggedToken(g[j], tag(g, j)))
  }

  /** `words` joined with single spaces. */
  function SpaceJoin(words: seq<string>): string
  {
    if |words| == 0 then ""
    else if |words| == 1 then words[0]
    else SpaceJoin(words[..|words| - 1]) + " " + words[|words| - 1]
  }

  function Words(tagged: seq<TaggedToken>): (r: seq<string>)
    ensures |r| == |tagged| && forall j :: 0 <= j < |tagged| ==> r[j] == tagged[j].word
  {
    seq(|tagged|, j requires 0 <= j < |tagged| => tagged[j].word)
  }

  /** The phrase the `i`-th n-gram is counted under. */
  function WindowPhrase(text: seq<Token>, n: nat, i: nat): string
    requires 1 <= n && i < NumWindows(text, n)
  {
    SpaceJoin(text[i..i + n])
  }

  /** The `i`-th n-gram passes the filter. */
  predicate Accepted(text: seq<Token>, n: nat, tag: Tagger, i: nat)
    requires 1 <= n && i < NumWindows(text, n)
  {
    ValidCollocation(TagWindow(text, n, i, tag), n) == Ok(true)
  }

  /** Filtering the `i`-th n-gram raises the unsupported-length error. */
  predicate Raises(text: seq<Token>, n: nat, tag: Tagger, i: nat)
    requires 1 <= n && i < NumWindows(text, n)
  {
    ValidCollocation(TagWindow(text, n, i, tag), n).Err?
  }

  /** The count table built from the first `upto` n-grams of `text`. */
  function Counts(text: seq<Token>, n: nat, tag: Tagger, upto: nat): seq<Item>
    requires 1 <= n && upto <= NumWindows(text, n)
  {
    if upto == 0 then []
    else
      var c := Counts(text, n, tag, upto - 1);
      if Accepted(text, n, tag, upto - 1) then Bump(c, WindowPhrase(text, n, upto - 1)) else c
  }

  /** A count table has distinct phrases and positive counts. */
  lemma {:induction false} CountsTable(text: seq<Token>, n: nat, tag: Tagger, upto: nat)
    requires 1 <= n && upto <= NumWindows(text, n)
    ensures DistinctKeys(Counts(text, n, tag, upto)) && Positive(Counts(text, n, tag, upto))
  {
    if upto > 0 {
      var i := upto - 1;
      CountsTable(text, n, tag, i);
      CountsStep(text, n, tag, i);
      BumpKeeps(Counts(text, n, tag, i), WindowPhrase(text, n, i));
    }
  }

  /** One more window extends the table by that window's phrase, when it is accepted. */
  lemma CountsStep(text: seq<Token>, n: nat, tag: Tagger, i: nat)
    requires 1 <= n && i < NumWindows(text, n)
    ensures Counts(text, n, tag, i + 1) ==
      if Accepted(text, n, tag, i) then Bump(Counts(text, n, tag, i), WindowPhrase(text, n, i))
      else Counts(text, n, tag, i)
  {
  }

  /** No n-gram before `i + 1` raises when none before `i` does and the `i`-th does not. */
  lemma NoRaiseStep(text: seq<Token>, n: nat, tag: Tagger, i: nat)
    requires 1 <= n && i < NumWindows(text, n)
    requires forall j :: 0 <= j < i ==> !Raises(text, n, tag, j)
    requires !Raises(text, n, tag, i)
    ensures forall j :: 0 <= j < i + 1 ==> !Raises(text, n, tag, j)
  {
  }

  /** The words of the `i`-th tagged n-gram are the tokens of the window. */
  lemma WindowWords(text: seq<Token>, n: nat, i: nat, tag: Tagger)
    requires 1 <= n && i < NumWindows(text, n)
    ensures Words(TagWindow(text, n, i, tag)[..n]) == text[i..i + n]
  {
    var w := Words(TagWindow(text, n, i, tag)[..n]);
    assert forall j :: 0 <= j < n ==> w[j] == text[i..i + n][j];
  }

  /**
   * The number of positions before `upto` whose n-gram passes the filter and
   * reads `k` once joined with spaces.
   */
  function Occurrences(text: seq<Token>, n: nat, tag: Tagger, k: string, upto: nat): nat
    requires 1 <= n && upto <= NumWindows(text, n)
  {
    if upto == 0 then 0
    else
      Occurrences(text, n, tag, k, upto - 1) +
      (if Accepted(text, n, tag, upto - 1) && WindowPhrase(text, n, upto - 1) == k then 1 else 0)
  }

  /**
   * The count under every phrase is the number of window positions that
   * pass the filter and join to that phrase; a phrase is present iff it
   * occurs at least once.
   */
  lemma {:induction false} CountsAreOccurrences(text: seq<Token>, n: nat, tag: Tagger, upto: nat, k: string)
    requires 1 <= n && upto <= NumWindows(text, n)
    ensures Lookup(Counts(text, n, tag, upto), k) == Occurrences(text, n, tag, k, upto)
    ensures HasKey(Counts(text, n, tag, upto), k) <==> Occurrences(text, n, tag, k, upto) >= 1
  {
    CountsLookup(text, n, tag, upto, k);
    CountsTable(text, n, tag, upto);
    LookupPresent(Counts(text, n, tag, upto), k);
  }

  lemma {:induction false} CountsLookup(text: seq<Token>, n: nat, tag: Tagger, upto: nat, k: string)
    requires 1 <= n && upto <= NumWindows(text, n)
    ensures Lookup(Counts(text, n, tag, upto), k) == Occurrences(text, n, tag, k, upto)
  {
    if upto > 0 {
      var i := upto - 1;
      CountsLookup(text, n, tag, i, k);
      CountsStep(text, n, tag, i);
      var c, p := Counts(text, n, tag, i), WindowPhrase(text, n, i);
      if Accepted(text, n, tag, i) {
        BumpLookup(c, p, k);
      }
    }
  }

  /** In a table of positive counts, a key is present iff its count is at least one. */
  lemma LookupPresent(d: seq<Item>, k: string)
    requires DistinctKeys(d) && Positive(d)
    ensures HasKey(d, k) <==> Lookup(d, k) >= 1
  {
    if HasKey(d, k) {
      var e :| e in d && e.key == k;
    }
  }

  /* ---------------------------------------------------------------------
   * Ranking
   * --------------------------------------------------------------------- */

  ghost predicate SortedAscending(s: seq<Item>)
  {
    forall i :: 0 < i < |s| ==> s[i - 1].count <= s[i].count
  }

  /** Counts never increase from one item to the next. */
  ghost predicate SortedDescending(s: seq<Item>)
  {
    forall i :: 0 < i < |s| ==> s[i - 1].count >= s[i].count
  }

  /** In a descending list every item is counted at least as high as any later one. */
  lemma {:induction false} DescendingPairs(s: seq<Item>, i: int, j: int)
    requires SortedDescending(s) && 0 <= i <= j < |s|
    ensures s[i].count >= s[j].count
    decreases j - i
  {
    if i < j {
      DescendingPairs(s, i + 1, j);
    }
  }

  /** Inserts `x` into ascending `s` in front of the first item whose count is at least x's. */
  function InsertAscending(x: Item, s: seq<Item>): (r: seq<Item>)
    requires SortedAscending(s)
    ensures SortedAscending(r)
    ensures |r| == |s| + 1 && (r[0] == x || (s != [] && r[0] == s[0]))
    ensures multiset(r) == multiset(s) + multiset{x}
  {
    if s == [] || x.count <= s[0].count then [x] + s
    else
      assert s == [s[0]] + s[1..];
      [s[0]] + InsertAscending(x, s[1..])
  }

  /** A stable ascending sort by count, as Python's `sorted` with a count key. */
  function SortAscending(d: seq<Item>): (r: seq<Item>)
    ensures |r| == |d| && SortedAscending(r)
    ensures multiset(r) == multiset(d)
  {
    if d == [] then []
    else
      assert d == [d[0]] + d[1..];
      InsertAscending(d[0], SortAscending(d[1..]))
  }

  function Reverse(s: seq<Item>): (r: seq<Item>)
    ensures |r| == |s| && forall i :: 0 <= i < |s| ==> r[i] == s[|s| - 1 - i]
    ensures multiset(r) == multiset(s)
  {
    if s == [] then []
    else
      assert s == [s[0]] + s[1..];
      Reverse(s[1..]) + [s[0]]
  }

  /**
   * The items of `d` by non-increasing count: a stable ascending sort,
   * reversed, so that among equal counts the later-inserted key comes first.
   */
  function RankDescending(d: seq<Item>): (r: seq<Item>)
    ensures |r| == |d| && SortedDescending(r)
    ensures multiset(r) == multiset(d)
    ensures DistinctKeys(d) ==> DistinctKeys(r)
  {
    var r := Reverse(SortAscending(d));
    KeySetOfPermutation(d, r);
    r
  }

  /** How many items a top-`top` truncation of `size` items keeps. */
  function TopCount(top: int, size: nat): nat
  {
    if top <= 0 then 0 else if top < size then top else size
  }

  /** The `top` highest-counted items of `d` (none when `top` is not positive). */
  function Ranked(d: seq<Item>, top: int): (r: seq<Item>)
    ensures |r| == TopCount(top, |d|)
  {
    RankDescending(d)[..TopCount(top, |d|)]
  }

  /**
   * The ranking is by non-increasing count; each ranked entry is an item of
   * `d`; keys stay distinct; and no item left out is counted higher than
   * one kept.
   */
  lemma RankedIsTop(d: seq<Item>, top: int)
    ensures SortedDescending(Ranked(d, top))
    ensures forall e :: e in Ranked(d, top) ==> e in d
    ensures DistinctKeys(d) ==> DistinctKeys(Ranked(d, top))
    ensures forall e, x :: e in d && e !in Ranked(d, top) && x in Ranked(d, top) ==> x.count >= e.count
  {
    RankedSortedFromInput(d, top);
    RankedDistinct(d, top);
    RankedBeatsRest(d, top);
  }

  lemma RankedSortedFromInput(d: seq<Item>, top: int)
    ensures SortedDescending(Ranked(d, top))
    ensures forall e :: e in Ranked(d, top) ==> e in d
  {
    var full := RankDescending(d);
    PrefixKeepsSorted(full, TopCount(top, |d|));
    SameMembers(d, full);
  }

  lemma RankedDistinct(d: seq<Item>, top: int)
    ensures DistinctKeys(d) ==> DistinctKeys(Ranked(d, top))
  {
    PrefixKeepsDistinct(RankDescending(d), TopCount(top, |d|));
  }

  lemma RankedBeatsRest(d: seq<Item>, top: int)
    ensures forall e, x :: e in d && e !in Ranked(d, top) && x in Ranked(d, top) ==> x.count >= e.count
  {
    var full := RankDescending(d);
    SameMembers(d, full);
    PrefixKeepsTop(full, TopCount(top, |d|));
  }

  lemma PrefixKeepsSorted(s: seq<Item>, k: nat)
    requires SortedDescending(s) && k <= |s|
    ensures SortedDescending(s[..k])
    ensures forall e :: e in s[..k] ==> e in s
  {
    assert forall i :: 0 <= i < k ==> s[..k][i] == s[i];
  }

  /** Two lists that are permutations of each other have the same members. */
  lemma SameMembers(d: seq<Item>, s: seq<Item>)
    requires multiset(s) == multiset(d)
    ensures forall e :: e in s <==> e in d
  {
    assert forall e :: e in s <==> e in multiset(s);
    assert forall e :: e in d <==> e in multiset(d);
  }

  lemma PrefixKeepsTop(s: seq<Item>, k: nat)
    requires SortedDescending(s) && k <= |s|
    ensures forall e, x :: e in s && e !in s[..k] && x in s[..k] ==> x.count >= e.count
  {
    forall e, x | e in s && e !in s[..k] && x in s[..k]
      ensures x.count >= e.count
    {
      var p :| 0 <= p < |s| && s[p] == e;
      var q :| 0 <= q < k && s[..k][q] == x;
      assert forall i :: 0 <= i < k ==> s[..k][i] == s[i];
      assert p >= k;
      DescendingPairs(s, q, p);
    }
  }

  lemma PrefixKeepsDistinct(s: seq<Item>, k: nat)
    requires k <= |s|
    ensures DistinctKeys(s) ==> DistinctKeys(s[..k])
  {
    var a, b := s[..k], s[k..];
    assert s == a + b;
    assert KeySet(s) == KeySet(a) + KeySet(b);
    KeySetSize(a);
    KeySetSize(b);
  }

  /* ---------------------------------------------------------------------
   * The extractor
   * --------------------------------------------------------------------- */

  /** An extractor over a fixed token sequence, holding its latest results per n-gram length. */
  class Collocation {
    const text: seq<Token>
    var collocationDict: map<int, seq<Item>>

    constructor (tokens: seq<Token>)
      ensures text == tokens && collocationDict == map[]
    {
      text := tokens;
      collocationDict := map[];
    }

    /**
     * Counts the n-grams of the text that pass the filter under their
     * space-joined phrase and stores the `top` most frequent as the result
     * for `n`. Fails, leaving the results unchanged, when filtering some
     * n-gram raises the unsupported-length error.
     */
    method FrequencyCollocations(n: nat, top: int, tag: Tagger) returns (outcome: Outcome)
      requires 1 <= n
      modifies this
      ensures outcome.Fail? <==> exists j :: 0 <= j < NumWindows(text, n) && Raises(text, n, tag, j)
      ensures outcome.Fail? ==> outcome.error == UnsupportedLength(n) && collocationDict == old(collocationDict)
      ensures outcome.Pass? ==>
        collocationDict == old(collocationDict)[n := Ranked(Counts(text, n, tag, NumWindows(text, n)), top)]
    {
      var scan := CountCollocations(text, n, tag);
      if scan.Err? {
        return Fail(scan.error);
      }
      var ranked := SortDict(scan.value, top);
      collocationDict := collocationDict[n := ranked];
      return Pass;
    }
  }

  /**
   * The count table of the n-grams of `text` that pass the filter, keyed by
   * their space-joined phrase; an error when filtering some n-gram raises.
   */
  method CountCollocations(text: seq<Token>, n: nat, tag: Tagger) returns (r: Result<seq<Item>>)
    requires 1 <= n
    ensures r.Err? <==> exists j :: 0 <= j < NumWindows(text, n) && Raises(text, n, tag, j)
    ensures r.Err? ==> r.error == UnsupportedLength(n)
    ensures r.Ok? ==> r.value == Counts(text, n, tag, NumWindows(text, n))
  {
    var counts: seq<Item> := [];
    var i := 0;
    while i < NumWindows(text, n)
      invariant 0 <= i <= NumWindows(text, n)
      invariant counts == Counts(text, n, tag, i)
      invariant forall j :: 0 <= j < i ==> !Raises(text, n, tag, j)
    {
      var step := CountWindow(text, n, tag, i, counts);
      if step.Err? {
        assert Raises(text, n, tag, i);
        return Err(step.error);
      }
      NoRaiseStep(text, n, tag, i);
      CountsStep(text, n, tag, i);
      counts := step.value;
      i := i + 1;
    }
    return Ok(counts);
  }

  /**
   * Filters the `i`-th n-gram of `text` and, when it passes, adds one to
   * its phrase in `counts`; an error when the filter raises.
   */
  method CountWindow(text: seq<Token>, n: nat, tag: Tagger, i: nat, counts: seq<Item>) returns (r: Result<seq<Item>>)
    requires 1 <= n && i < NumWindows(text, n)
    ensures r.Err? <==> Raises(text, n, tag, i)
    ensures r.Err? ==> r.error == UnsupportedLength(n)
    ensures r.Ok? ==>
      r.value == if Accepted(text, n, tag, i) then Bump(counts, WindowPhrase(text, n, i)) else counts
  {
    var tagged := TagWindow(text, n, i, tag);
    var valid := ValidCollocation(tagged, n);
    if valid.Err? {
      return Err(valid.error);
    }
    if valid.value {
      var phrase := Phrase(tagged, n);
      WindowWords(text, n, i, tag);
      return Ok(Bump(counts, phrase));
    }
    return Ok(counts);
  }

  /** The first `n` words of `tagged` joined with single spaces, built word by word. */
  method Phrase(tagged: seq<TaggedToken>, n: nat) returns (phrase: string)
    requires 1 <= n <= |tagged|
    ensures phrase == SpaceJoin(Words(tagged[..n]))
  {
    var words := Words(tagged[..n]);
    var collocation := "";
    var i := 0;
    while i < n
      invariant 0 <= i <= n
      invariant collocation == if i == 0 then "" else SpaceJoin(words[..i]) + " "
    {
      assert words[..i + 1][..i] == words[..i];
      collocation := collocation + tagged[i].word + " ";
      i := i + 1;
    }
    assert words[..n] == words;
    phrase := collocation[..|collocation| - 1];
  }

  /**
   * The items of `d` by non-increasing count, truncated to the first `top`
   * (none when `top` is not positive).
   */
  method SortDict(d: seq<Item>, top: int) returns (finalList: seq<Item>)
    ensures finalList == Ranked(d, top)
  {
    var sorted := RankDescending(d);
    finalList := TakeFirst(sorted, top);
  }

  /**
   * Appends `s[0]`, `s[1]`, ... for each of `top` steps, stopping early once
   * the index runs past the end of `s`.
   */
  method TakeFirst(s: seq<Item>, top: int) returns (r: seq<Item>)
    ensures r == s[..TopCount(top, |s|)]
  {
    r := [];
    var i := 0;
    while i < top
      invariant 0 <= i <= |s|
      invariant i == 0 || i <= top
      invariant r == s[..i]
    {
      if i >= |s| {
        return;
      }
      assert s[..i + 1] == s[..i] + [s[i]];
      r := r + [s[i]];
      i := i + 1;
    }
  }

  /* ---------------------------------------------------------------------
   * Distinguishing bigrams of two parts of a corpus
   * --------------------------------------------------------------------- */

  /**
   * Where list slicing cuts `size` items at `split`: a negative `split`
   * counts from the end, and the cut is clamped to the list.
   */
  function Cut(size: nat, split: int): (c: nat)
    ensures c <= size
    ensures 0 <= split <= size ==> c == split
    ensures -(size as int) <= split < 0 ==> c == size + split
  {
    if split < 0 then (if size + split < 0 then 0 else size + split)
    else if split < size then split
    else size
  }

  /**
   * The bigram table an extractor stores after `frequency_collocations()`
   * with its defaults n = 2 and top = 100: positive counts under distinct
   * phrases.
   */
  function BigramTable(tokens: seq<Token>, tag: Tagger): (r: seq<Item>)
    ensures |r| <= 100 && Positive(r) && DistinctKeys(r)
  {
    var counts := Counts(tokens, 2, tag, NumWindows(tokens, 2));
    CountsTable(tokens, 2, tag, NumWindows(tokens, 2));
    RankedIsTop(counts, 100);
    Ranked(counts, 100)
  }

  /** `v` is more than 80 per cent of `v + w`, in exact division. */
  predicate Concentrated(v: nat, w: nat)
    requires v + w > 0
  {
    (v as real) / ((v + w) as real) > 0.8
  }

  /** The 80 per cent share threshold is the integer test `v > 4 * w`. */
  lemma ShareThreshold(v: nat, w: nat)
    requires v + w > 0
    ensures Concentrated(v, w) <==> v > 4 * w
  {
    var x, y := v as real, w as real;
    assert ((v + w) as real) == x + y;
    ShareAbove(x, y);
  }

  lemma ShareAbove(x: real, y: real)
    requires x >= 0.0 && y >= 0.0 && x + y > 0.0
    ensures x / (x + y) > 0.8 <==> x > 4.0 * y
  {
    var t := x + y;
    QuotientTimes(x, t);
    ShareOver(x / t, x, t);
    assert 0.8 * t == 0.8 * x + 0.8 * y;
  }

  lemma ShareOver(share: real, x: real, t: real)
    requires t > 0.0 && share * t == x
    ensures share > 0.8 <==> x > 0.8 * t
  {
    ScaleByPositive(share, 0.8, t);
  }

  lemma QuotientTimes(x: real, t: real)
    requires t > 0.0
    ensures x / t * t == x
  {
  }

  lemma ScaleByPositive(a: real, b: real, c: real)
    requires c > 0.0
    ensures a > b <==> a * c > b * c
  {
    PositiveTimes(a - b, c);
    assert a * c - b * c == (a - b) * c;
  }

  lemma PositiveTimes(d: real, c: real)
    requires c > 0.0
    ensures d > 0.0 <==> d * c > 0.0
  {
  }

  /**
   * The keys of `mine`, in order, that `other` lacks or that occur more
   * than 80 per cent of the time in `mine`.
   */
  function Distinguishing(mine: seq<Item>, other: seq<Item>): seq<string>
    requires Positive(mine)
  {
    if mine == [] then []
    else
      var e := mine[|mine| - 1];
      Distinguishing(mine[..|mine| - 1], other) +
      (if !HasKey(other, e.key) || Concentrated(e.count, Lookup(other, e.key)) then [e.key] else [])
  }

  lemma DistinctKeysSnoc(s: seq<Item>, x: Item)
    ensures DistinctKeys(s + [x]) <==> x.key !in KeySet(s) && DistinctKeys(s)
  {
    assert forall e :: e in s + [x] <==> e in s || e == x;
    assert KeySet(s + [x]) == KeySet(s) + {x.key};
    KeySetSize(s);
  }

  /**
   * A phrase is listed for `mine` iff `mine` has it and either `other` lacks
   * it or its count in `mine` is more than four times its count in `other`.
   */
  lemma {:induction false} DistinguishingMember(mine: seq<Item>, other: seq<Item>, k: string)
    requires Positive(mine) && DistinctKeys(mine)
    ensures k in Distinguishing(mine, other) <==>
      HasKey(mine, k) && (!HasKey(other, k) || Lookup(mine, k) > 4 * Lookup(other, k))
  {
    if mine != [] {
      var prefix, e := mine[..|mine| - 1], mine[|mine| - 1];
      assert mine == prefix + [e];
      DistinctKeysSnoc(prefix, e);
      assert forall x :: x in mine <==> x in prefix || x == e;
      DistinguishingMember(prefix, other, k);
      if HasKey(prefix, k) {
        var x :| x in prefix && x.key == k;
        assert Lookup(prefix, k) == x.count == Lookup(mine, k);
      }
      if e.key == k {
        assert Lookup(mine, k) == e.count;
        ShareThreshold(e.count, Lookup(other, k));
      }
    }
  }

  /**
   * A phrase of only one table is listed for that table and not the other,
   * and no phrase is listed for both.
   */
  lemma DistinguishingSplit(a: seq<Item>, b: seq<Item>)
    requires Positive(a) && DistinctKeys(a) && Positive(b) && DistinctKeys(b)
    ensures forall k :: HasKey(a, k) && !HasKey(b, k) ==> k in Distinguishing(a, b) && k !in Distinguishing(b, a)
    ensures forall k :: !(k in Distinguishing(a, b) && k in Distinguishing(b, a))
  {
    forall k
      ensures HasKey(a, k) && !HasKey(b, k) ==> k in Distinguishing(a, b) && k !in Distinguishing(b, a)
      ensures !(k in Distinguishing(a, b) && k in Distinguishing(b, a))
    {
      DistinguishingMember(a, b, k);
      DistinguishingMember(b, a, k);
    }
  }

  /**
   * Splits `corpus` at `split`, builds the bigram table of each part and
   * lists, for each part, the phrases that the other part lacks or that
   * occur in this part more than 80 per cent of the time.
   */
  method DistinguishingTerms(corpus: seq<Token>, split: int, tag: Tagger)
    returns (firstHalf: seq<string>, sndHalf: seq<string>)
    ensures firstHalf == Distinguishing(BigramTable(corpus[..Cut(|corpus|, split)], tag),
                                        BigramTable(corpus[Cut(|corpus|, split)..], tag))
    ensures sndHalf == Distinguishing(BigramTable(corpus[Cut(|corpus|, split)..], tag),
                                      BigramTable(corpus[..Cut(|corpus|, split)], tag))
  {
    var c := Cut(|corpus|, split);
    var h1dict := HalfTable(corpus[..c], tag);
    var h2dict := HalfTable(corpus[c..], tag);
    firstHalf := SelectDistinguishing(h1dict, h2dict);
    sndHalf := SelectDistinguishing(h2dict, h1dict);
  }

  /** Runs `frequency_collocations()` with its defaults on a fresh extractor over `tokens` and reads the bigram table. */
  method HalfTable(tokens: seq<Token>, tag: Tagger) returns (table: seq<Item>)
    ensures table == BigramTable(tokens, tag)
  {
    var h := new Collocation(tokens);
    var outcome := h.FrequencyCollocations(2, 100, tag);
    assert forall j :: 0 <= j < NumWindows(h.text, 2) ==> !Raises(h.text, 2, tag, j);
    table := h.collocationDict[2];
  }

  /**
   * The keys of `mine`, visited in order, that `other` lacks or whose share
   * of the combined count is more than 0.8.
   */
  method SelectDistinguishing(mine: seq<Item>, other: seq<Item>) returns (keys: seq<string>)
    requires Positive(mine)
    ensures keys == Distinguishing(mine, other)
  {
    keys := [];
    var i := 0;
    while i < |mine|
      invariant 0 <= i <= |mine|
      invariant Positive(mine[..i])
      invariant keys == Distinguishing(mine[..i], other)
    {
      var e := mine[i];
      assert mine[..i + 1][..i] == mine[..i];
      if HasKey(other, e.key) {
        if (e.count as real) / ((e.count + Lookup(other, e.key)) as real) > 0.8 {
          keys := keys + [e.key];
        }
      } else {
        keys := keys + [e.key];
      }
      i := i + 1;
    }
    assert mine[..i] == mine;
  }
}
