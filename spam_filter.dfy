/**
 * A naive-Bayes document classifier in the spam-filter tradition: it counts
 * how often each feature occurs with each label during training, and scores
 * a document against a label by a product of smoothed per-feature
 * probabilities times the label's share of the training documents.
 *
 * Scores are exact reals; floating-point rounding and underflow are not
 * modelled.
 */
module SpamFilter {

  type Feature = string
  type Label = string

  /** How many times `x` occurs in `s`. */
  function Mult<T(==)>(x: T, s: seq<T>): nat
  {
    multiset(s)[x]
  }

  lemma PrefixStep<T>(s: seq<T>, i: nat)
    requires i < |s|
    ensures s[..i + 1] != [] && s[..i + 1][..i] == s[..i] && s[..i + 1][i] == s[i]
  {
  }

  /** A default-zero counter lookup. */
  function Count<K>(m: map<K, nat>, k: K): nat
  {
    if k in m then m[k] else 0
  }

  /** The per-label counts of feature `f`, empty when `f` was never counted. */
  function Row(fc: map<Feature, map<Label, nat>>, f: Feature): map<Label, nat>
  {
    if f in fc then fc[f] else map[]
  }

  function Pair(fc: map<Feature, map<Label, nat>>, f: Feature, l: Label): nat
  {
    Count(Row(fc, f), l)
  }

  /** The sum of all counts in `m`. */
  ghost function Total(m: map<Label, nat>): nat
    decreases |m|
  {
    if |m| == 0 then 0
    else
      var l :| l in m;
      assert |m.Keys - {l}| == |m.Keys| - 1;
      m[l] + Total(m - {l})
  }

  /** The key the sum takes out first. */
  lemma TotalPick(m: map<Label, nat>) returns (k: Label)
    requires |m| > 0
    ensures k in m && Total(m) == m[k] + Total(m - {k})
  {
    k :| k in m && Total(m) == m[k] + Total(m - {k});
  }

  /** Any single key can be taken out of the sum first. */
  lemma {:induction false} TotalRemove(m: map<Label, nat>, l: Label)
    requires l in m
    ensures Total(m) == m[l] + Total(m - {l})
    decreases |m|
  {
    var l' := TotalPick(m);
    if l' != l {
      assert |m.Keys - {l'}| == |m.Keys| - 1;
      assert |m.Keys - {l}| == |m.Keys| - 1;
      var ml, ml' := m - {l}, m - {l'};
      assert l in ml' && ml'[l] == m[l];
      assert l' in ml && ml[l'] == m[l'];
      TotalRemove(ml', l);
      TotalRemove(ml, l');
      RemoveTwice(m, l', l);
      RemoveTwice(m, l, l');
      assert {l', l} == {l, l'};
    }
  }

  lemma RemoveTwice(m: map<Label, nat>, a: Label, b: Label)
    ensures (m - {a}) - {b} == m - {a, b}
  {
  }

  /** Adding one to a key's count adds one to the sum. */
  lemma TotalBump(m: map<Label, nat>, l: Label)
    ensures Total(Inc(m, l)) == Total(m) + 1
  {
    if l in m {
      TotalBumpPresent(m, l);
    } else {
      TotalBumpAbsent(m, l);
    }
  }

  lemma TotalBumpPresent(m: map<Label, nat>, l: Label)
    requires l in m
    ensures Total(m[l := m[l] + 1]) == Total(m) + 1
  {
    var m' := m[l := m[l] + 1];
    TotalRemove(m', l);
    TotalRemove(m, l);
    assert m' - {l} == m - {l};
  }

  lemma TotalBumpAbsent(m: map<Label, nat>, l: Label)
    requires l !in m
    ensures Total(m[l := 1]) == Total(m) + 1
  {
    var m' := m[l := 1];
    TotalRemove(m', l);
    assert m' - {l} == m;
  }

  /** Every count is at most the sum. */
  lemma TotalBound(m: map<Label, nat>, l: Label)
    ensures Count(m, l) <= Total(m)
  {
    if l in m {
      TotalRemove(m, l);
    }
  }

  /** `m` with one more count at `k`. */
  function Inc(m: map<string, nat>, k: string): (r: map<string, nat>)
  {
    m[k := Count(m, k) + 1]
  }

  /** `m` after counting every key of `ks`, in order. */
  function IncAll(m: map<string, nat>, ks: seq<string>): map<string, nat>
    decreases |ks|
  {
    if ks == [] then m else Inc(IncAll(m, ks[..|ks| - 1]), ks[|ks| - 1])
  }

  lemma {:induction false} IncAllCount(m: map<string, nat>, ks: seq<string>, k: string)
    ensures Count(IncAll(m, ks), k) == Count(m, k) + Mult(k, ks)
    decreases |ks|
  {
    if ks != [] {
      IncAllCount(m, ks[..|ks| - 1], k);
      assert ks == ks[..|ks| - 1] + [ks[|ks| - 1]];
    }
  }

  /** `fc` with one more count for the pair (f, l); the other rows are untouched. */
  function IncPair(fc: map<Feature, map<Label, nat>>, f: Feature, l: Label): (r: map<Feature, map<Label, nat>>)
    ensures Row(r, f) == Inc(Row(fc, f), l)
    ensures forall g :: g != f ==> Row(r, g) == Row(fc, g)
  {
    fc[f := Inc(Row(fc, f), l)]
  }

  /** `fc` after counting every feature of `fs`, in order, with label `l`. */
  function IncPairs(fc: map<Feature, map<Label, nat>>, fs: seq<Feature>, l: Label): map<Feature, map<Label, nat>>
    decreases |fs|
  {
    if fs == [] then fc else IncPair(IncPairs(fc, fs[..|fs| - 1], l), fs[|fs| - 1], l)
  }

  lemma {:induction false} IncPairsCount(fc: map<Feature, map<Label, nat>>, fs: seq<Feature>, l: Label, f: Feature, l': Label)
    ensures Pair(IncPairs(fc, fs, l), f, l') == Pair(fc, f, l') + (if l' == l then Mult(f, fs) else 0)
    decreases |fs|
  {
    if fs != [] {
      IncPairsCount(fc, fs[..|fs| - 1], l, f, l');
      assert fs == fs[..|fs| - 1] + [fs[|fs| - 1]];
    }
  }

  /** The feature totals after one training call: `fs` counted once per label occurrence. */
  function TrainFeatures(features: map<Feature, nat>, fs: seq<Feature>, ls: seq<Label>): map<Feature, nat>
    decreases |ls|
  {
    if ls == [] then features else IncAll(TrainFeatures(features, fs, ls[..|ls| - 1]), fs)
  }

  /** The pair counts after one training call: `fs` counted under each label occurrence in turn. */
  function TrainPairs(fc: map<Feature, map<Label, nat>>, fs: seq<Feature>, ls: seq<Label>): map<Feature, map<Label, nat>>
    decreases |ls|
  {
    if ls == [] then fc else IncPairs(TrainPairs(fc, fs, ls[..|ls| - 1]), fs, ls[|ls| - 1])
  }

  /** `order` extended with the labels of `ls` it does not hold yet, in first-seen order. */
  function Register(order: seq<Label>, ls: seq<Label>): seq<Label>
    decreases |ls|
  {
    if ls == [] then order
    else
      var o := Register(order, ls[..|ls| - 1]);
      if ls[|ls| - 1] in o then o else o + [ls[|ls| - 1]]
  }

  /** A feature's total grows by its multiplicity times the number of labels. */
  lemma {:induction false} TrainFeaturesCount(features: map<Feature, nat>, fs: seq<Feature>, ls: seq<Label>, f: Feature)
    ensures Count(TrainFeatures(features, fs, ls), f) == Count(features, f) + Mult(f, fs) * |ls|
    decreases |ls|
  {
    if ls != [] {
      TrainFeaturesCount(features, fs, ls[..|ls| - 1], f);
      IncAllCount(TrainFeatures(features, fs, ls[..|ls| - 1]), fs, f);
      Distribute(Mult(f, fs), |ls| - 1, 1);
    }
  }

  /** A pair's count grows by the product of the feature's and the label's multiplicities. */
  lemma {:induction false} TrainPairsCount(fc: map<Feature, map<Label, nat>>, fs: seq<Feature>, ls: seq<Label>, f: Feature, l: Label)
    ensures Pair(TrainPairs(fc, fs, ls), f, l) == Pair(fc, f, l) + Mult(f, fs) * Mult(l, ls)
    decreases |ls|
  {
    if ls != [] {
      var init, last := ls[..|ls| - 1], ls[|ls| - 1];
      TrainPairsCount(fc, fs, init, f, l);
      IncPairsCount(TrainPairs(fc, fs, init), fs, last, f, l);
      assert ls == init + [last];
      assert Mult(l, ls) == Mult(l, init) + (if last == l then 1 else 0);
      Distribute(Mult(f, fs), Mult(l, init), if last == l then 1 else 0);
    }
  }

  lemma Distribute(a: nat, b: nat, c: nat)
    ensures a * (b + c) == a * b + a * c
  {
  }

  /** Each feature total is the sum of the feature's per-label counts. */
  ghost predicate Summed(features: map<Feature, nat>, fc: map<Feature, map<Label, nat>>)
  {
    forall f :: Count(features, f) == Total(Row(fc, f))
  }

  /** Counting one (feature, label) occurrence in both tables keeps them summed. */
  lemma SummedStep(features: map<Feature, nat>, fc: map<Feature, map<Label, nat>>, f: Feature, l: Label)
    requires Summed(features, fc)
    ensures Summed(Inc(features, f), IncPair(fc, f, l))
  {
    var features', fc' := Inc(features, f), IncPair(fc, f, l);
    forall g ensures Count(features', g) == Total(Row(fc', g)) {
      if g == f {
        TotalBump(Row(fc, f), l);
      } else {
        assert Row(fc', g) == Row(fc, g);
      }
    }
  }

  lemma {:induction false} SummedIncAll(features: map<Feature, nat>, fc: map<Feature, map<Label, nat>>, fs: seq<Feature>, l: Label)
    requires Summed(features, fc)
    ensures Summed(IncAll(features, fs), IncPairs(fc, fs, l))
    decreases |fs|
  {
    if fs != [] {
      SummedIncAll(features, fc, fs[..|fs| - 1], l);
      SummedStep(IncAll(features, fs[..|fs| - 1]), IncPairs(fc, fs[..|fs| - 1], l), fs[|fs| - 1], l);
    }
  }

  /** Training keeps every feature total equal to the sum of its per-label counts. */
  lemma {:induction false} TrainSummed(features: map<Feature, nat>, fc: map<Feature, map<Label, nat>>, fs: seq<Feature>, ls: seq<Label>)
    requires Summed(features, fc)
    ensures Summed(TrainFeatures(features, fs, ls), TrainPairs(fc, fs, ls))
    decreases |ls|
  {
    if ls != [] {
      TrainSummed(features, fc, fs, ls[..|ls| - 1]);
      SummedIncAll(TrainFeatures(features, fs, ls[..|ls| - 1]), TrainPairs(fc, fs, ls[..|ls| - 1]), fs, ls[|ls| - 1]);
    }
  }

  /** `order` lists the keys of `labels` once each. */
  ghost predicate Listed(labels: map<Label, nat>, order: seq<Label>)
  {
    && (forall l :: l in labels <==> l in order)
    && (forall i, j :: 0 <= i < j < |order| ==> order[i] != order[j])
  }

  lemma ListedStep(labels: map<Label, nat>, order: seq<Label>, l: Label)
    requires Listed(labels, order)
    ensures Listed(Inc(labels, l), if l in labels then order else order + [l])
  {
  }

  /** One more document label: its features are counted once more, under that label. */
  lemma TrainStep(features: map<Feature, nat>, fc: map<Feature, map<Label, nat>>, fs: seq<Feature>, ls: seq<Label>, i: nat)
    requires i < |ls|
    ensures TrainFeatures(features, fs, ls[..i + 1]) == IncAll(TrainFeatures(features, fs, ls[..i]), fs)
    ensures TrainPairs(fc, fs, ls[..i + 1]) == IncPairs(TrainPairs(fc, fs, ls[..i]), fs, ls[i])
  {
    PrefixStep(ls, i);
  }

  /** One more key of `ks`: it is counted once more. */
  lemma IncAllStep(m: map<string, nat>, ks: seq<string>, j: nat)
    requires j < |ks|
    ensures IncAll(m, ks[..j + 1]) == Inc(IncAll(m, ks[..j]), ks[j])
  {
    PrefixStep(ks, j);
  }

  /** One more feature: it is counted once more in the totals and under `l`. */
  lemma CountStep(m: map<Feature, nat>, fc: map<Feature, map<Label, nat>>, fs: seq<Feature>, l: Label, j: nat)
    requires j < |fs|
    ensures IncAll(m, fs[..j + 1]) == Inc(IncAll(m, fs[..j]), fs[j])
    ensures IncPairs(fc, fs[..j + 1], l) == IncPair(IncPairs(fc, fs[..j], l), fs[j], l)
  {
    IncAllStep(m, fs, j);
    PrefixStep(fs, j);
  }

  /** One label occurrence: it joins the order exactly when it is not yet a known label. */
  lemma LabelStep(labels: map<Label, nat>, order: seq<Label>, ls: seq<Label>, i: nat)
    requires Listed(labels, order) && i < |ls|
    ensures var o := Register(order, ls[..i]);
      Register(order, ls[..i + 1]) == if ls[i] in IncAll(labels, ls[..i]) then o else o + [ls[i]]
  {
    TrainListed(labels, order, ls[..i]);
    PrefixStep(ls, i);
  }

  /** Training keeps the label order listing the known labels once each, in first-seen order. */
  lemma {:induction false} TrainListed(labels: map<Label, nat>, order: seq<Label>, ls: seq<Label>)
    requires Listed(labels, order)
    ensures Listed(IncAll(labels, ls), Register(order, ls))
    decreases |ls|
  {
    if ls != [] {
      TrainListed(labels, order, ls[..|ls| - 1]);
      ListedStep(IncAll(labels, ls[..|ls| - 1]), Register(order, ls[..|ls| - 1]), ls[|ls| - 1]);
    }
  }

  /** No element occurs twice in the list. */
  ghost predicate NoRepeats(s: seq<string>)
  {
    forall x :: Mult(x, s) <= 1
  }

  /** No pair was counted more often than its label. */
  ghost predicate PairsWithin(fc: map<Feature, map<Label, nat>>, labels: map<Label, nat>)
  {
    forall f, l :: Pair(fc, f, l) <= Count(labels, l)
  }

  /** No label was counted more often than there were training calls. */
  ghost predicate LabelsWithin(labels: map<Label, nat>, total: nat)
  {
    forall l :: Count(labels, l) <= total
  }

  lemma AtMostOnce(a: nat, b: nat)
    requires a <= 1
    ensures a * b <= b
  {
  }

  /** A training call that repeats no feature counts no pair more often than its label. */
  lemma TrainPairsWithin(fc: map<Feature, map<Label, nat>>, labels: map<Label, nat>, fs: seq<Feature>, ls: seq<Label>)
    requires PairsWithin(fc, labels) && NoRepeats(fs)
    ensures PairsWithin(TrainPairs(fc, fs, ls), IncAll(labels, ls))
  {
    forall f, l ensures Pair(TrainPairs(fc, fs, ls), f, l) <= Count(IncAll(labels, ls), l) {
      TrainPairsCount(fc, fs, ls, f, l);
      IncAllCount(labels, ls, l);
      AtMostOnce(Mult(f, fs), Mult(l, ls));
    }
  }

  /** A training call that repeats no label counts each label at most once more. */
  lemma TrainLabelsWithin(labels: map<Label, nat>, total: nat, ls: seq<Label>)
    requires LabelsWithin(labels, total) && NoRepeats(ls)
    ensures LabelsWithin(IncAll(labels, ls), total + 1)
  {
    forall l ensures Count(IncAll(labels, ls), l) <= total + 1 {
      IncAllCount(labels, ls, l);
    }
  }

  /** `r` lies between `a` and `b`, whichever is smaller. */
  ghost predicate Between(r: real, a: real, b: real)
  {
    (a <= b ==> a <= r <= b) && (b <= a ==> b <= r <= a)
  }

  lemma NonNegative(x: real, y: real)
    ensures x >= 0.0 && y >= 0.0 ==> x * y >= 0.0
  {
  }

  lemma SignOfFactor(x: real, d: real)
    requires d > 0.0
    ensures x * d >= 0.0 ==> x >= 0.0
  {
  }

  lemma PositiveProduct(a: real, b: real)
    ensures a > 0.0 && b > 0.0 ==> a * b > 0.0
    ensures a > 0.0 && b >= 0.0 ==> a * b >= 0.0 && (a * b > 0.0 <==> b > 0.0)
  {
  }

  /** The product of `w` over the features of `fs`, taken left to right. */
  function IntProduct(fs: seq<Feature>, w: Feature -> int): int
    decreases |fs|
  {
    if fs == [] then 1 else IntProduct(fs[..|fs| - 1], w) * w(fs[|fs| - 1])
  }

  lemma IntProductSnoc(fs: seq<Feature>, x: Feature, w: Feature -> int)
    ensures IntProduct(fs + [x], w) == IntProduct(fs, w) * w(x)
  {
    assert (fs + [x])[..|fs|] == fs;
  }

  lemma {:induction false} IntProductAppend(a: seq<Feature>, b: seq<Feature>, w: Feature -> int)
    ensures IntProduct(a + b, w) == IntProduct(a, w) * IntProduct(b, w)
    decreases |b|
  {
    if b == [] {
      assert a + b == a;
    } else {
      var init, last := b[..|b| - 1], b[|b| - 1];
      assert (a + b)[..|a + b| - 1] == a + init;
      IntProductAppend(a, init, w);
      assert IntProduct(a + b, w) == (IntProduct(a, w) * IntProduct(init, w)) * w(last);
    }
  }

  /** Removing the last element of `a` and one occurrence of it from `b` keeps the two permutations of each other. */
  lemma RemoveOccurrence(a: seq<Feature>, b: seq<Feature>) returns (left: seq<Feature>, right: seq<Feature>)
    requires a != [] && multiset(a) == multiset(b)
    ensures b == left + [a[|a| - 1]] + right
    ensures multiset(a[..|a| - 1]) == multiset(left + right)
  {
    var x := a[|a| - 1];
    var init := a[..|a| - 1];
    assert a == init + [x];
    assert multiset(a) == multiset(init) + multiset{x};
    assert x in multiset(b);
    var k :| 0 <= k < |b| && b[k] == x;
    left, right := b[..k], b[k + 1..];
    SplitAt(b, k);
    Cancel(multiset(init), multiset(left + right), x);
  }

  lemma Cancel(p: multiset<Feature>, q: multiset<Feature>, x: Feature)
    requires p + multiset{x} == q + multiset{x}
    ensures p == q
  {
    assert p == (p + multiset{x}) - multiset{x};
    assert q == (q + multiset{x}) - multiset{x};
  }

  /** Cutting `b` around position `k` leaves the rest with one occurrence of `b[k]` fewer. */
  lemma SplitAt(b: seq<Feature>, k: nat)
    requires k < |b|
    ensures b == b[..k] + [b[k]] + b[k + 1..]
    ensures multiset(b) == multiset(b[..k] + b[k + 1..]) + multiset{b[k]}
  {
    assert b == b[..k] + [b[k]] + b[k + 1..];
  }

  /** The product does not depend on the order of the features. */
  lemma {:induction false} IntProductPermutation(a: seq<Feature>, b: seq<Feature>, w: Feature -> int)
    requires multiset(a) == multiset(b)
    ensures IntProduct(a, w) == IntProduct(b, w)
    decreases |a|
  {
    if a == [] {
      assert |b| == |multiset(b)| == 0;
    } else {
      var x := a[|a| - 1];
      var init := a[..|a| - 1];
      assert a == init + [x];
      var left, right := RemoveOccurrence(a, b);
      IntProductPermutation(init, left + right, w);
      IntProductSnoc(init, x, w);
      IntProductAppend(left + [x], right, w);
      IntProductSnoc(left, x, w);
      IntProductAppend(left, right, w);
      Regroup(IntProduct(left, w), w(x), IntProduct(right, w));
    }
  }

  lemma Regroup(p: int, x: int, q: int)
    ensures (p * q) * x == (p * x) * q
  {
  }

  lemma {:induction false} IntProductPositive(fs: seq<Feature>, w: Feature -> int)
    requires forall i :: 0 <= i < |fs| ==> w(fs[i]) > 0
    ensures IntProduct(fs, w) > 0
    decreases |fs|
  {
    if fs != [] {
      IntProductPositive(fs[..|fs| - 1], w);
    }
  }

  /** A product of positive factors, each at most its partner, is at most the partners' product. */
  lemma {:induction false} IntProductMonotone(fs: seq<Feature>, n: Feature -> int, d: Feature -> int)
    requires forall i :: 0 <= i < |fs| ==> 0 < n(fs[i]) <= d(fs[i])
    ensures 0 < IntProduct(fs, n) <= IntProduct(fs, d)
    decreases |fs|
  {
    if fs != [] {
      var init, last := fs[..|fs| - 1], fs[|fs| - 1];
      IntProductMonotone(init, n, d);
      MultiplyMonotone(IntProduct(init, n), IntProduct(init, d), n(last), d(last));
    }
  }

  lemma MultiplyMonotone(a: int, b: int, c: int, d: int)
    requires 0 < a <= b && 0 < c <= d
    ensures 0 < a * c <= b * d
  {
    assert a * c <= b * c;
    assert b * c <= b * d;
  }

  /**
   * The smoothed probability with weight 1 and prior 1/2 of a feature seen
   * `total` times, `pair` of them with a label counted `labelCount` times,
   * as an exact fraction: this is the numerator.
   */
  function SmoothedNumerator(total: nat, pair: nat, labelCount: nat): nat
  {
    if pair != 0 && labelCount != 0 then labelCount + 2 * total * pair else 1
  }

  /** The denominator matching `SmoothedNumerator`. */
  function SmoothedDenominator(total: nat, pair: nat, labelCount: nat): nat
  {
    if pair != 0 && labelCount != 0 then 2 * labelCount * (1 + total) else 2 * (1 + total)
  }

  /** The fraction is positive, and at most one when the pair was seen no more often than its label. */
  lemma SmoothedBounds(total: nat, pair: nat, labelCount: nat)
    ensures 0 < SmoothedNumerator(total, pair, labelCount)
    ensures 0 < SmoothedDenominator(total, pair, labelCount)
    ensures pair <= labelCount ==> SmoothedNumerator(total, pair, labelCount) <= SmoothedDenominator(total, pair, labelCount)
  {
    if pair != 0 && labelCount != 0 {
      assert 0 < 2 * labelCount * (1 + total);
      if pair <= labelCount {
        assert total * pair <= total * labelCount;
      }
    }
  }

  lemma CastProduct(a: int, b: int)
    ensures (a * b) as real == a as real * b as real
  {
  }

  /** The raw feature probability from a pair count and a label count: zero unless both are non-zero. */
  function RawProbability(pairCount: nat, labelCount: nat): (p: real)
    ensures p >= 0.0
    ensures p == 0.0 <==> pairCount == 0 || labelCount == 0
  {
    if pairCount != 0 && labelCount != 0 then pairCount as real / labelCount as real else 0.0
  }

  /**
   * The raw probability `p` of a feature seen `total` times, smoothed
   * towards the prior `ap` counted as `weight` observations; a zero total
   * weight is a division by zero.
   */
  function Smooth(weight: real, ap: real, total: nat, p: real): (r: Quotient)
    ensures r.ZeroDivision? <==> weight + total as real == 0.0
    ensures r.Value? && total == 0 ==> r.v == ap
  {
    if weight + total as real == 0.0 then ZeroDivision
    else Value((weight * ap + total as real * p) / (weight + total as real))
  }

  /**
   * With weight 1 and prior 1/2 the smoothed probability is the exact
   * fraction `SmoothedNumerator / SmoothedDenominator`.
   */
  lemma SmoothedFraction(total: nat, pair: nat, labelCount: nat)
    ensures Smooth(1.0, 0.5, total, RawProbability(pair, labelCount)).Value?
    ensures Smooth(1.0, 0.5, total, RawProbability(pair, labelCount)).v
            == SmoothedNumerator(total, pair, labelCount) as real / SmoothedDenominator(total, pair, labelCount) as real
  {
    SmoothedBounds(total, pair, labelCount);
    var n := total as real;
    var p := RawProbability(pair, labelCount);
    var v := Smooth(1.0, 0.5, total, p).v;
    assert v * (1.0 + n) == 1.0 * 0.5 + n * p;
    var num, den := SmoothedNumerator(total, pair, labelCount), SmoothedDenominator(total, pair, labelCount);
    if pair != 0 && labelCount != 0 {
      var c, k := labelCount as real, pair as real;
      assert p * c == k;
      FractionStep(v, n, p, c, k);
      CastProduct(2 * total, pair);
      CastProduct(2 * labelCount, 1 + total);
      assert num as real == c + 2.0 * n * k;
      assert den as real == 2.0 * c * (1.0 + n);
    } else {
      assert v * (2.0 * (1.0 + n)) == 1.0;
    }
    QuotientOf(v, num as real, den as real);
  }

  lemma FractionStep(v: real, n: real, p: real, c: real, k: real)
    requires v * (1.0 + n) == 1.0 * 0.5 + n * p && p * c == k
    ensures v * (2.0 * c * (1.0 + n)) == c + 2.0 * n * k
  {
    assert v * (2.0 * c * (1.0 + n)) == 2.0 * c * (v * (1.0 + n));
    assert 2.0 * c * (0.5 + n * p) == c + 2.0 * n * (p * c);
  }

  lemma QuotientOf(v: real, a: real, b: real)
    requires b > 0.0 && v * b == a
    ensures v == a / b
  {
  }

  lemma FractionProduct(a: int, b: int, c: int, d: int)
    requires b > 0 && d > 0
    ensures (a * c) as real / (b * d) as real == (a as real / b as real) * (c as real / d as real)
  {
    CastProduct(a, c);
    CastProduct(b, d);
  }

  lemma FractionAtMostOne(a: int, b: int)
    requires 0 <= a <= b && 0 < b
    ensures 0.0 <= a as real / b as real <= 1.0
  {
  }

  lemma Rescale(r: real, d: real, p: real, t: real, c: real)
    requires r == d * p && p * t == c
    ensures r * t == d * c
  {
  }

  /** A document score `d` weighted by a share `c / t` of the calls. */
  lemma ScoreMeaning(r: real, d: real, c: nat, t: nat)
    requires d > 0.0 && t > 0
    requires r == d * (c as real / t as real)
    ensures r >= 0.0
    ensures r > 0.0 <==> c > 0
    ensures r * t as real == d * c as real
  {
    var share := c as real / t as real;
    QuotientTimesShare(c as real, t as real);
    assert share > 0.0 <==> c > 0 by {
      assert share * t as real == c as real;
    }
    PositiveProduct(d, share);
    Rescale(r, d, share, t as real, c as real);
  }

  lemma QuotientTimesShare(c: real, t: real)
    requires t > 0.0 && c >= 0.0
    ensures c / t * t == c && c / t >= 0.0
  {
  }

  lemma ScoreAtMostOne(r: real, d: real, c: nat, t: nat)
    requires 0.0 <= d <= 1.0 && c <= t && t > 0
    requires r == d * (c as real / t as real)
    ensures r <= 1.0
  {
    FractionAtMostOne(c, t);
    ProductAtMostOne(d, c as real / t as real);
  }

  lemma ProductAtMostOne(a: real, b: real)
    requires 0.0 <= a <= 1.0 && 0.0 <= b <= 1.0
    ensures a * b <= 1.0
  {
    NonNegative(a, 1.0 - b);
    assert a * (1.0 - b) == a - a * b;
  }

  /** A weighted mean with a positive weight on `a` lies between `a` and `b`. */
  lemma MeanBetween(w: real, n: real, a: real, b: real)
    requires w > 0.0 && n >= 0.0
    ensures Between((w * a + n * b) / (w + n), a, b)
  {
    var r := (w * a + n * b) / (w + n);
    assert r * (w + n) == w * a + n * b;
    assert (r - a) * (w + n) == n * (b - a);
    assert (b - r) * (w + n) == w * (b - a);
    NonNegative(n, b - a);
    NonNegative(w, b - a);
    NonNegative(n, a - b);
    NonNegative(w, a - b);
    SignOfFactor(r - a, w + n);
    SignOfFactor(b - r, w + n);
    SignOfFactor(a - r, w + n);
    SignOfFactor(r - b, w + n);
  }

  /** The outcome of a true division that may meet a zero denominator. */
  datatype Quotient = Value(v: real) | ZeroDivision

  /** A label with its score. */
  datatype Scored = Scored(name: Label, score: real)

  /** What a call to `classify` produces: a ranking, or the NameError raised on an unbound name. */
  datatype ClassifyOutcome = Ranking(pairs: seq<Scored>) | NameError(name: string)

  ghost predicate SortedByScore(s: seq<Scored>)
  {
    forall i :: 0 < i < |s| ==> s[i - 1].score >= s[i].score
  }

  lemma {:induction false} ScoresDescend(s: seq<Scored>, i: int, j: int)
    requires SortedByScore(s) && 0 <= i <= j < |s|
    ensures s[i].score >= s[j].score
    decreases j - i
  {
    if i < j {
      ScoresDescend(s, i + 1, j);
    }
  }

  /** Inserts `x` into descending `s` in front of the first item scored at most x's. */
  function InsertByScore(x: Scored, s: seq<Scored>): (r: seq<Scored>)
    requires SortedByScore(s)
    ensures SortedByScore(r)
    ensures |r| == |s| + 1 && (r[0] == x || (s != [] && r[0] == s[0]))
    ensures multiset(r) == multiset(s) + multiset{x}
  {
    if s == [] || x.score >= s[0].score then [x] + s
    else
      assert s == [s[0]] + s[1..];
      [s[0]] + InsertByScore(x, s[1..])
  }

  /**
   * A stable sort by non-increasing score: among equal scores the original
   * order is kept, as with Python's `sorted(..., reverse=True)`.
   */
  function SortByScore(s: seq<Scored>): (r: seq<Scored>)
    ensures |r| == |s| && SortedByScore(r)
    ensures multiset(r) == multiset(s)
  {
    if s == [] then []
    else
      assert s == [s[0]] + s[1..];
      InsertByScore(s[0], SortByScore(s[1..]))
  }

  /** How many items `s[:limit]` keeps of `size`; a negative limit drops that many from the end. */
  function TakeCount(limit: int, size: nat): (k: nat)
    ensures k <= size
    ensures 0 <= limit ==> k == if limit < size then limit else size
  {
    if limit >= 0 then (if limit < size then limit else size)
    else if size + limit > 0 then size + limit
    else 0
  }

  /** The names in a list of scored labels. */
  function Names(s: seq<Scored>): set<Label>
  {
    set x | x in s :: x.name
  }

  /** No name occurs twice: there are as many names as entries. */
  ghost predicate DistinctNames(s: seq<Scored>)
  {
    |Names(s)| == |s|
  }

  lemma {:induction false} NamesSize(s: seq<Scored>)
    ensures |Names(s)| <= |s|
  {
    if s != [] {
      NamesSize(s[1..]);
      assert s == [s[0]] + s[1..];
      assert Names(s) == {s[0].name} + Names(s[1..]);
    }
  }

  lemma NamesSnoc(s: seq<Scored>, x: Scored)
    ensures Names(s + [x]) == Names(s) + {x.name}
  {
  }

  /** A permutation has the same names, and keeps them distinct. */
  lemma NamesOfPermutation(a: seq<Scored>, b: seq<Scored>)
    requires multiset(a) == multiset(b)
    ensures Names(a) == Names(b) && |a| == |b|
  {
    assert forall x :: x in a <==> x in multiset(a);
    assert forall x :: x in b <==> x in multiset(b);
    assert |a| == |multiset(a)| == |multiset(b)| == |b|;
  }

  /** A prefix of a list with distinct names has distinct names. */
  lemma PrefixNames(s: seq<Scored>, k: nat)
    requires k <= |s| && DistinctNames(s)
    ensures DistinctNames(s[..k])
  {
    var a, b := s[..k], s[k..];
    assert s == a + b;
    assert Names(s) == Names(a) + Names(b);
    NamesSize(a);
    NamesSize(b);
  }

  /** The best `limit` entries of `t`, as `sorted(t, reverse=True)[:limit]` picks them. */
  function Top(t: seq<Scored>, limit: int): (r: seq<Scored>)
    ensures |r| == TakeCount(limit, |t|)
  {
    var sorted := SortByScore(t);
    sorted[..TakeCount(limit, |sorted|)]
  }

  /**
   * The chosen entries are entries of `t`, best first, with distinct names
   * when `t` has them, and no entry left out scores higher than one kept.
   */
  lemma TopIsBest(t: seq<Scored>, limit: int)
    requires DistinctNames(t)
    ensures SortedByScore(Top(t, limit)) && DistinctNames(Top(t, limit))
    ensures forall x :: x in Top(t, limit) ==> x in t
    ensures forall y, x :: y in t && y.name !in Names(Top(t, limit)) && x in Top(t, limit) ==> x.score >= y.score
  {
    TopShape(t, limit);
    TopFromList(t, limit);
    TopBeatsRest(t, limit);
  }

  lemma TopShape(t: seq<Scored>, limit: int)
    requires DistinctNames(t)
    ensures SortedByScore(Top(t, limit)) && DistinctNames(Top(t, limit))
  {
    var s := SortByScore(t);
    NamesOfPermutation(s, t);
    PrefixNames(s, TakeCount(limit, |s|));
  }

  lemma TopFromList(t: seq<Scored>, limit: int)
    ensures forall x :: x in Top(t, limit) ==> x in t
  {
    var s := SortByScore(t);
    forall x | x in s[..TakeCount(limit, |s|)]
      ensures x in t
    {
      assert x in multiset(s);
    }
  }

  lemma TopBeatsRest(t: seq<Scored>, limit: int)
    ensures forall y, x :: y in t && y.name !in Names(Top(t, limit)) && x in Top(t, limit) ==> x.score >= y.score
  {
    var s := SortByScore(t);
    var k := TakeCount(limit, |s|);
    var r := s[..k];
    assert Top(t, limit) == r;
    forall y, x | y in t && y.name !in Names(r) && x in r
      ensures x.score >= y.score
    {
      assert y in multiset(s);
      var q :| 0 <= q < |s| && s[q] == y;
      var i :| 0 <= i < k && r[i] == x;
      ScoresDescend(s, i, q);
    }
  }

  /** Entries named position by position after a list of distinct labels have distinct names, exactly those labels. */
  lemma {:induction false} NamesByPosition(t: seq<Scored>, order: seq<Label>)
    requires |t| == |order| && forall i :: 0 <= i < |t| ==> t[i].name == order[i]
    requires forall i, j :: 0 <= i < j < |order| ==> order[i] != order[j]
    ensures DistinctNames(t) && Names(t) == set l | l in order
    decreases |t|
  {
    if t != [] {
      var n := |t| - 1;
      NamesByPosition(t[..n], order[..n]);
      assert t == t[..n] + [t[n]];
      NamesSnoc(t[..n], t[n]);
      assert order == order[..n] + [order[n]];
      assert order[n] !in order[..n];
    }
  }

  /**
   * The training state is consistent: each feature total is the sum of its
   * pair counts, the label order lists the counted labels once each, there
   * are labels only after some training call, and, while no call repeated a
   * feature (a label), no pair (label) was counted more often than its label
   * (than there were calls).
   */
  ghost predicate Consistent(features: map<Feature, nat>, labels: map<Label, nat>, order: seq<Label>,
                             fc: map<Feature, map<Label, nat>>, total: nat, repeatFree: bool, labelsOnce: bool)
  {
    && Summed(features, fc)
    && Listed(labels, order)
    && (total == 0 ==> order == [])
    && (repeatFree ==> PairsWithin(fc, labels))
    && (labelsOnce ==> LabelsWithin(labels, total))
  }

  /** A training call keeps the state consistent. */
  lemma TrainConsistent(features: map<Feature, nat>, labels: map<Label, nat>, order: seq<Label>,
                        fc: map<Feature, map<Label, nat>>, total: nat, repeatFree: bool, labelsOnce: bool,
                        fs: seq<Feature>, ls: seq<Label>)
    requires Consistent(features, labels, order, fc, total, repeatFree, labelsOnce)
    ensures Consistent(TrainFeatures(features, fs, ls), IncAll(labels, ls), Register(order, ls),
                       TrainPairs(fc, fs, ls), total + 1, repeatFree && NoRepeats(fs), labelsOnce && NoRepeats(ls))
  {
    TrainSummed(features, fc, fs, ls);
    TrainListed(labels, order, ls);
    if repeatFree && NoRepeats(fs) {
      TrainPairsWithin(fc, labels, fs, ls);
    }
    if labelsOnce && NoRepeats(ls) {
      TrainLabelsWithin(labels, total, ls);
    }
  }

  /**
   * Training counters: per feature, per label, per (feature, label) pair,
   * and the number of training calls. Absent keys count as zero.
   */
  class Classifier {
    var features: map<Feature, nat>
    var labels: map<Label, nat>
    /** The keys of `labels` in the order they were first counted. */
    var labelOrder: seq<Label>
    var featureCounts: map<Feature, map<Label, nat>>
    var totalCount: nat
    /** No training call so far has listed a feature twice. */
    ghost var repeatFree: bool
    /** No training call so far has listed a label twice. */
    ghost var labelsOnce: bool

    function FeatureTotal(f: Feature): nat
      reads this
    {
      Count(features, f)
    }

    function LabelTotal(l: Label): nat
      reads this
    {
      Count(labels, l)
    }

    function PairCount(f: Feature, l: Label): nat
      reads this
    {
      Pair(featureCounts, f, l)
    }

    ghost predicate Valid()
      reads this
    {
      Consistent(features, labels, labelOrder, featureCounts, totalCount, repeatFree, labelsOnce)
    }

    constructor ()
      ensures Valid() && repeatFree && labelsOnce
      ensures features == map[] && labels == map[] && featureCounts == map[]
      ensures labelOrder == [] && totalCount == 0
    {
      features := map[];
      labels := map[];
      labelOrder := [];
      featureCounts := map[];
      totalCount := 0;
      repeatFree := true;
      labelsOnce := true;
    }

    /**
     * Counts one training document: for every label occurrence, every
     * feature occurrence is counted with that label and in the feature's
     * total, and the label's count grows by one; the number of training
     * calls grows by exactly one, even when either list is empty.
     */
    method Train(fs: seq<Feature>, ls: seq<Label>)
      requires Valid()
      modifies this
      ensures Valid()
      ensures features == TrainFeatures(old(features), fs, ls)
      ensures featureCounts == TrainPairs(old(featureCounts), fs, ls)
      ensures labels == IncAll(old(labels), ls)
      ensures labelOrder == Register(old(labelOrder), ls)
      ensures totalCount == old(totalCount) + 1
      ensures repeatFree == (old(repeatFree) && NoRepeats(fs))
      ensures labelsOnce == (old(labelsOnce) && NoRepeats(ls))
    {
      TrainConsistent(features, labels, labelOrder, featureCounts, totalCount, repeatFree, labelsOnce, fs, ls);
      CountDocument(fs, ls);
      totalCount := totalCount + 1;
      repeatFree := repeatFree && NoRepeats(fs);
      labelsOnce := labelsOnce && NoRepeats(ls);
    }

    /** Every pair was counted at most as often as its feature. */
    lemma PairAtMostFeature(f: Feature, l: Label)
      requires Valid()
      ensures PairCount(f, l) <= FeatureTotal(f)
    {
      TotalBound(Row(featureCounts, f), l);
    }

    /**
     * The share of label `l`'s count that feature `f` reached together with
     * it; zero when either count is zero.
     */
    function FeatureProbability(f: Feature, l: Label): (p: real)
      reads this
      ensures p >= 0.0
      ensures p == 0.0 <==> PairCount(f, l) == 0 || LabelTotal(l) == 0
    {
      RawProbability(PairCount(f, l), LabelTotal(l))
    }

    /** A known label's feature probability times its count is the pair count. */
    lemma FeatureProbabilityRatio(f: Feature, l: Label)
      requires LabelTotal(l) > 0
      ensures FeatureProbability(f, l) * LabelTotal(l) as real == PairCount(f, l) as real
    {
    }

    /** While no training call has repeated a feature, a feature probability is at most one. */
    lemma FeatureProbabilityAtMostOne(f: Feature, l: Label)
      requires Valid() && repeatFree
      ensures FeatureProbability(f, l) <= 1.0
    {
      var p := FeatureProbability(f, l);
      assert PairCount(f, l) <= LabelTotal(l);
      if LabelTotal(l) > 0 {
        FeatureProbabilityRatio(f, l);
        SignOfFactor(1.0 - p, LabelTotal(l) as real);
      }
    }

    /**
     * The feature probability smoothed towards the prior `ap`, with the
     * prior counting as `weight` observations; dividing by a zero total
     * weight raises ZeroDivisionError.
     */
    function WeightedProbability(f: Feature, l: Label, weight: real, ap: real): (r: Quotient)
      reads this
      ensures r.ZeroDivision? <==> weight + FeatureTotal(f) as real == 0.0
      ensures r.Value? && FeatureTotal(f) == 0 ==> r.v == ap
    {
      Smooth(weight, ap, FeatureTotal(f), FeatureProbability(f, l))
    }

    /** A computed value times the total weight is the weighted sum of the prior and the raw probability. */
    lemma WeightedProbabilityMean(f: Feature, l: Label, weight: real, ap: real)
      requires weight + FeatureTotal(f) as real != 0.0
      ensures WeightedProbability(f, l, weight, ap).v * (weight + FeatureTotal(f) as real)
              == weight * ap + FeatureTotal(f) as real * FeatureProbability(f, l)
    {
    }

    /** With a positive weight the smoothed value lies between the prior and the raw probability. */
    lemma WeightedBetween(f: Feature, l: Label, weight: real, ap: real)
      requires weight > 0.0
      ensures WeightedProbability(f, l, weight, ap).Value?
      ensures Between(WeightedProbability(f, l, weight, ap).v, ap, FeatureProbability(f, l))
    {
      MeanBetween(weight, FeatureTotal(f) as real, ap, FeatureProbability(f, l));
    }

    /** The numerators of the smoothed probabilities (weight 1, prior 1/2) under label `l`, feature by feature. */
    function Numerators(l: Label): Feature -> int
      reads this
    {
      var fe, fc, lb := features, featureCounts, labels;
      (f: Feature) => SmoothedNumerator(Count(fe, f), Pair(fc, f, l), Count(lb, l))
    }

    /** The matching denominators. */
    function Denominators(l: Label): Feature -> int
      reads this
    {
      var fe, fc, lb := features, featureCounts, labels;
      (f: Feature) => SmoothedDenominator(Count(fe, f), Pair(fc, f, l), Count(lb, l))
    }

    /**
     * The default smoothed probability of `f` under `l` is the fraction of
     * its numerator and denominator; both are positive, and the fraction is
     * at most one while no training call has repeated a feature.
     */
    lemma DefaultWeightedFraction(f: Feature, l: Label)
      ensures WeightedProbability(f, l, 1.0, 0.5).Value?
      ensures WeightedProbability(f, l, 1.0, 0.5).v == Numerators(l)(f) as real / Denominators(l)(f) as real
      ensures 0 < Numerators(l)(f) && 0 < Denominators(l)(f)
      ensures Valid() && repeatFree ==> Numerators(l)(f) <= Denominators(l)(f)
    {
      SmoothedFraction(FeatureTotal(f), PairCount(f, l), LabelTotal(l));
      SmoothedBounds(FeatureTotal(f), PairCount(f, l), LabelTotal(l));
    }

    lemma FactorsPositive(fs: seq<Feature>, l: Label)
      ensures 0 < IntProduct(fs, Numerators(l)) && 0 < IntProduct(fs, Denominators(l))
    {
      forall i | 0 <= i < |fs|
        ensures Numerators(l)(fs[i]) > 0 && Denominators(l)(fs[i]) > 0
      {
        DefaultWeightedFraction(fs[i], l);
      }
      IntProductPositive(fs, Numerators(l));
      IntProductPositive(fs, Denominators(l));
    }

    /**
     * The product of the default smoothed probabilities of the features of
     * a document, kept as the quotient of two exact integer products.
     */
    function DocumentScore(fs: seq<Feature>, l: Label): (r: real)
      reads this
      ensures fs == [] ==> r == 1.0
    {
      FactorsPositive(fs, l);
      IntProduct(fs, Numerators(l)) as real / IntProduct(fs, Denominators(l)) as real
    }

    /** Every document score is positive: each smoothed probability is. */
    lemma DocumentScorePositive(fs: seq<Feature>, l: Label)
      ensures DocumentScore(fs, l) > 0.0
    {
      FactorsPositive(fs, l);
    }

    /** The score of a concatenation is the product of the scores. */
    lemma DocumentScoreAppend(a: seq<Feature>, b: seq<Feature>, l: Label)
      ensures DocumentScore(a + b, l) == DocumentScore(a, l) * DocumentScore(b, l)
    {
      var num, den := Numerators(l), Denominators(l);
      IntProductAppend(a, b, num);
      IntProductAppend(a, b, den);
      FactorsPositive(a, l);
      FactorsPositive(b, l);
      FractionProduct(IntProduct(a, num), IntProduct(a, den), IntProduct(b, num), IntProduct(b, den));
    }

    /** The score of a document does not depend on the order of its features. */
    lemma DocumentScorePermutation(a: seq<Feature>, b: seq<Feature>, l: Label)
      requires multiset(a) == multiset(b)
      ensures DocumentScore(a, l) == DocumentScore(b, l)
    {
      IntProductPermutation(a, b, Numerators(l));
      IntProductPermutation(a, b, Denominators(l));
    }

    /** While no training call has repeated a feature, a document score is at most one. */
    lemma DocumentScoreAtMostOne(fs: seq<Feature>, l: Label)
      requires Valid() && repeatFree
      ensures DocumentScore(fs, l) <= 1.0
    {
      var num, den := Numerators(l), Denominators(l);
      forall i | 0 <= i < |fs|
        ensures 0 < num(fs[i]) <= den(fs[i])
      {
        DefaultWeightedFraction(fs[i], l);
      }
      IntProductMonotone(fs, num, den);
      FractionAtMostOne(IntProduct(fs, num), IntProduct(fs, den));
    }

    /** The score of a one-feature document is that feature's default smoothed probability. */
    lemma DocumentScoreSingle(f: Feature, l: Label)
      ensures DocumentScore([f], l) == WeightedProbability(f, l, 1.0, 0.5).v
    {
      var num, den := Numerators(l), Denominators(l);
      DefaultWeightedFraction(f, l);
      IntProductSnoc([], f, num);
      IntProductSnoc([], f, den);
      assert [] + [f] == [f];
      assert IntProduct([f], num) == num(f) && IntProduct([f], den) == den(f);
    }

    /** `document_probability`: the product of the default smoothed probabilities, accumulated feature by feature. */
    method DocumentProbability(fs: seq<Feature>, l: Label) returns (p: real)
      ensures p == DocumentScore(fs, l)
    {
      p := 1.0;
      assert fs[..0] == [];
      for i := 0 to |fs|
        invariant p == DocumentScore(fs[..i], l)
      {
        var w := WeightedProbability(fs[i], l, 1.0, 0.5);
        DocumentScoreSingle(fs[i], l);
        DocumentScoreAppend(fs[..i], [fs[i]], l);
        PrefixStep(fs, i);
        assert fs[..i + 1] == fs[..i] + [fs[i]];
        p := p * w.v;
      }
      assert fs[..|fs|] == fs;
    }

    /**
     * The score of label `l` for a document: its document score times the
     * label's share of the training calls; zero before any training.
     */
    function LabelScore(fs: seq<Feature>, l: Label): real
      reads this
    {
      if totalCount == 0 then 0.0
      else
        var labelProb := LabelTotal(l) as real / totalCount as real;
        var docProb := DocumentScore(fs, l);
        docProb * labelProb
    }

    /**
     * A score is never negative, is zero before any training, is positive
     * exactly when the label was counted, and times the number of training
     * calls it is the document score times the label's count.
     */
    lemma ProbabilityMeaning(fs: seq<Feature>, l: Label)
      ensures LabelScore(fs, l) >= 0.0
      ensures totalCount == 0 ==> LabelScore(fs, l) == 0.0
      ensures LabelScore(fs, l) > 0.0 <==> totalCount > 0 && LabelTotal(l) > 0
      ensures totalCount > 0 ==> LabelScore(fs, l) * totalCount as real == DocumentScore(fs, l) * LabelTotal(l) as real
    {
      if totalCount > 0 {
        DocumentScorePositive(fs, l);
        ProbabilityFactors(fs, l);
        ScoreMeaning(LabelScore(fs, l), DocumentScore(fs, l), LabelTotal(l), totalCount);
      }
    }

    /** `probability`: the label's share of the training calls times the document probability. */
    method Probability(fs: seq<Feature>, l: Label) returns (r: real)
      ensures r == LabelScore(fs, l)
    {
      if totalCount == 0 {
        return 0.0;
      }
      var labelProb := LabelTotal(l) as real / totalCount as real;
      var docProb := DocumentProbability(fs, l);
      r := docProb * labelProb;
    }

    /** While no training call has repeated a label, no label was counted more often than there were calls. */
    lemma LabelAtMostCalls(l: Label)
      requires Valid() && labelsOnce
      ensures LabelTotal(l) <= totalCount
    {
    }

    lemma ProbabilityFactors(fs: seq<Feature>, l: Label)
      requires totalCount > 0
      ensures LabelScore(fs, l) == DocumentScore(fs, l) * (LabelTotal(l) as real / totalCount as real)
    {
    }

    /** While no training call has repeated a feature or a label, a score is at most one. */
    lemma ProbabilityAtMostOne(fs: seq<Feature>, l: Label)
      requires Valid() && repeatFree && labelsOnce
      ensures LabelScore(fs, l) <= 1.0
    {
      DocumentScoreAtMostOne(fs, l);
      DocumentScorePositive(fs, l);
      LabelAtMostCalls(l);
      ScoreWithinBounds(fs, l);
    }

    lemma ScoreWithinBounds(fs: seq<Feature>, l: Label)
      requires 0.0 <= DocumentScore(fs, l) <= 1.0 && LabelTotal(l) <= totalCount
      ensures LabelScore(fs, l) <= 1.0
    {
      if totalCount > 0 {
        ProbabilityFactors(fs, l);
        ScoreAtMostOne(LabelScore(fs, l), DocumentScore(fs, l), LabelTotal(l), totalCount);
      }
    }

    /** One scored entry per label of `order`, in that order. */
    function Scores(fs: seq<Feature>, order: seq<Label>): (r: seq<Scored>)
      reads this
      ensures |r| == |order|
      ensures forall i :: 0 <= i < |order| ==> r[i] == Scored(order[i], LabelScore(fs, order[i]))
      decreases |order|
    {
      if order == [] then []
      else
        var l := order[|order| - 1];
        Scores(fs, order[..|order| - 1]) + [Scored(l, LabelScore(fs, l))]
    }

    /** The intended result of `classify`: all labels ranked by score, cut to `limit` entries. */
    function Ranked(fs: seq<Feature>, limit: int): (r: seq<Scored>)
      reads this
      ensures |r| == TakeCount(limit, |labelOrder|)
    {
      Top(Scores(fs, labelOrder), limit)
    }

    /**
     * The ranking holds known labels with their scores, each at most once,
     * best first, and no label left out scores higher than one kept.
     */
    lemma RankedIsTop(fs: seq<Feature>, limit: int)
      requires Valid()
      ensures SortedByScore(Ranked(fs, limit))
      ensures DistinctNames(Ranked(fs, limit))
      ensures forall x :: x in Ranked(fs, limit) ==> x.name in labels && x.score == LabelScore(fs, x.name)
      ensures forall l, x :: l in labels && l !in Names(Ranked(fs, limit)) && x in Ranked(fs, limit) ==> x.score >= LabelScore(fs, l)
      ensures totalCount == 0 ==> Ranked(fs, limit) == []
    {
      RankedEntries(fs, limit);
      RankedBeatsRest(fs, limit);
    }

    lemma RankedEntries(fs: seq<Feature>, limit: int)
      requires Listed(labels, labelOrder)
      ensures SortedByScore(Ranked(fs, limit)) && DistinctNames(Ranked(fs, limit))
      ensures forall x :: x in Ranked(fs, limit) ==> x.name in labels && x.score == LabelScore(fs, x.name)
    {
      var t := Scores(fs, labelOrder);
      NamesByPosition(t, labelOrder);
      TopShape(t, limit);
      TopFromList(t, limit);
      forall x | x in Ranked(fs, limit)
        ensures x.name in labels && x.score == LabelScore(fs, x.name)
      {
        var i :| 0 <= i < |t| && t[i] == x;
      }
    }

    lemma RankedBeatsRest(fs: seq<Feature>, limit: int)
      requires Listed(labels, labelOrder)
      ensures forall l, x :: l in labels && l !in Names(Ranked(fs, limit)) && x in Ranked(fs, limit) ==> x.score >= LabelScore(fs, l)
    {
      var t := Scores(fs, labelOrder);
      var r := Ranked(fs, limit);
      TopBeatsRest(t, limit);
      forall l, x | l in labels && l !in Names(r) && x in r
        ensures x.score >= LabelScore(fs, l)
      {
        var p :| 0 <= p < |labelOrder| && labelOrder[p] == l;
        assert t[p] in t;
      }
    }

    /** The corrected `classify`: one scored entry per known label, sorted and truncated. */
    method Classify(fs: seq<Feature>, limit: int) returns (ranking: seq<Scored>)
      ensures ranking == Ranked(fs, limit)
    {
      var probs: seq<Scored> := [];
      for i := 0 to |labelOrder|
        invariant probs == Scores(fs, labelOrder[..i])
      {
        var lab := labelOrder[i];
        var p := Probability(fs, lab);
        probs := probs + [Scored(lab, p)];
        PrefixStep(labelOrder, i);
      }
      assert labelOrder[..|labelOrder|] == labelOrder;
      var sorted := SortByScore(probs);
      ranking := sorted[..TakeCount(limit, |sorted|)];
    }

    /**
     * `classify` as written: its loop stores into `probs`, a name it never
     * binds (it binds `probability`), and its return reads `probs` too, so
     * every call raises NameError, with or without known labels.
     */
    function ClassifyAsWritten(fs: seq<Feature>, limit: int): ClassifyOutcome
      reads this
    {
      NameError("probs")
    }

    /** The code as written never yields the intended ranking. */
    lemma ClassifyAsWrittenFails(fs: seq<Feature>, limit: int)
      ensures ClassifyAsWritten(fs, limit) != Ranking(Ranked(fs, limit))
      ensures ClassifyAsWritten(fs, limit).NameError?
    {
    }

    /** The state after training once on ["money"] labelled "spam" ranks "spam" at 3/4 for ["money"]. */
    lemma SpamExample()
      requires FeatureTotal("money") == 1 && PairCount("money", "spam") == 1 && LabelTotal("spam") == 1
      requires labelOrder == ["spam"] && totalCount == 1
      ensures Ranked(["money"], 5) == [Scored("spam", 0.75)]
    {
      DocumentScoreSingle("money", "spam");
      DefaultWeightedFraction("money", "spam");
      assert Numerators("spam")("money") == 3 && Denominators("spam")("money") == 4;
      assert LabelScore(["money"], "spam") == 0.75;
      assert Scores(["money"], labelOrder) == [Scored("spam", 0.75)];
      TopSingle(Scored("spam", 0.75), 5);
    }

    /** The empty document scores a label at the label's share of the training calls. */
    lemma EmptyDocumentScore(l: Label)
      requires totalCount > 0
      ensures LabelScore([], l) * totalCount as real == LabelTotal(l) as real
    {
      assert DocumentScore([], l) == 1.0;
      var share := LabelTotal(l) as real / totalCount as real;
      assert share * totalCount as real == LabelTotal(l) as real;
    }

    /** The outer loop of training: the features are counted under each label occurrence in turn. */
    method CountDocument(fs: seq<Feature>, ls: seq<Label>)
      requires Listed(labels, labelOrder)
      modifies this
      ensures features == TrainFeatures(old(features), fs, ls)
      ensures featureCounts == TrainPairs(old(featureCounts), fs, ls)
      ensures labels == IncAll(old(labels), ls)
      ensures labelOrder == Register(old(labelOrder), ls)
      ensures totalCount == old(totalCount) && repeatFree == old(repeatFree) && labelsOnce == old(labelsOnce)
    {
      var fe, fc, lb, order := features, featureCounts, labels, labelOrder;
      var i := 0;
      while i < |ls|
        invariant 0 <= i <= |ls|
        invariant fe == TrainFeatures(old(features), fs, ls[..i])
        invariant fc == TrainPairs(old(featureCounts), fs, ls[..i])
        invariant lb == IncAll(old(labels), ls[..i])
        invariant order == Register(old(labelOrder), ls[..i])
        modifies {}
      {
        var lab := ls[i];
        TrainStep(old(features), old(featureCounts), fs, ls, i);
        LabelStep(old(labels), old(labelOrder), ls, i);
        IncAllStep(old(labels), ls, i);
        fe, fc := CountFeatures(fe, fc, fs, lab);
        if lab !in lb {
          order := order + [lab];
        }
        lb := Inc(lb, lab);
        i := i + 1;
      }
      assert ls[..i] == ls;
      features, featureCounts, labels, labelOrder := fe, fc, lb, order;
    }
  }

  /**
   * The inner loop of training: each occurrence of a feature in `fs` is
   * counted in the totals `fe` and, with label `lab`, in the pair counts `fc`.
   */
  method CountFeatures(fe: map<Feature, nat>, fc: map<Feature, map<Label, nat>>, fs: seq<Feature>, lab: Label)
    returns (fe': map<Feature, nat>, fc': map<Feature, map<Label, nat>>)
    ensures fe' == IncAll(fe, fs)
    ensures fc' == IncPairs(fc, fs, lab)
  {
    fe', fc' := fe, fc;
    var j := 0;
    while j < |fs|
      invariant 0 <= j <= |fs|
      invariant fe' == IncAll(fe, fs[..j])
      invariant fc' == IncPairs(fc, fs[..j], lab)
    {
      CountStep(fe, fc, fs, lab, j);
      fc' := IncPair(fc', fs[j], lab);
      fe' := Inc(fe', fs[j]);
      j := j + 1;
    }
    assert fs[..j] == fs;
  }

  /** A single entry is its own ranking under any positive limit. */
  lemma TopSingle(x: Scored, limit: int)
    requires limit >= 1
    ensures Top([x], limit) == [x]
  {
    assert [x][1..] == [];
  }

  /**
   * Training once on the document ["money"] labelled "spam" and classifying
   * ["money"]: the corrected `classify` ranks "spam" with score 3/4, while
   * the code as written raises NameError.
   */
  method ClassifyExample() returns (ranking: seq<Scored>, asWritten: ClassifyOutcome)
    ensures ranking == [Scored("spam", 0.75)]
    ensures asWritten == NameError("probs")
  {
    var c := new Classifier();
    c.Train(["money"], ["spam"]);
    TrainFeaturesCount(map[], ["money"], ["spam"], "money");
    TrainPairsCount(map[], ["money"], ["spam"], "money", "spam");
    IncAllCount(map[], ["spam"], "spam");
    assert Register([], ["spam"]) == ["spam"] by {
      assert ["spam"][..0] == [];
    }
    c.SpamExample();
    ranking := c.Classify(["money"], 5);
    asWritten := c.ClassifyAsWritten(["money"], 5);
  }

  /**
   * A feature listed twice in one document is counted twice with its label,
   * so its feature probability is 2, not a probability.
   */
  method RepeatedFeatureExample() returns (p: real)
    ensures p == 2.0
  {
    var c := new Classifier();
    c.Train(["a", "a"], ["x"]);
    TrainPairsCount(map[], ["a", "a"], ["x"], "a", "x");
    IncAllCount(map[], ["x"], "x");
    assert Mult("a", ["a", "a"]) == 2 by {
      assert multiset(["a", "a"]) == multiset{"a", "a"};
    }
    p := c.FeatureProbability("a", "x");
  }

  /**
   * A label listed twice in one training call is counted twice against a
   * single call, so the score of the empty document under it is 2.
   */
  method RepeatedLabelExample() returns (r: real)
    ensures r == 2.0
  {
    var c := new Classifier();
    c.Train([], ["x", "x"]);
    IncAllCount(map[], ["x", "x"], "x");
    assert Mult("x", ["x", "x"]) == 2 by {
      assert multiset(["x", "x"]) == multiset{"x", "x"};
    }
    assert c.LabelTotal("x") == 2 && c.totalCount == 1;
    c.EmptyDocumentScore("x");
    r := c.Probability([], "x");
  }
}
