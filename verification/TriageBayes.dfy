/**
 The naive Bayes model of the mail triage (internal/mailtriage/model.go). Scores are exact reals: a sum of
 logarithms becomes the product of the ratios, and the logistic function of it odds over one plus odds.
 */
module BayesModel {
  import opened Reals
  import opened Sequences
  import opened Sums

  /** What is counted for one of the two classes. */
  datatype Side = Side(docs: nat, tokens: map<string, nat>, total: nat)

  datatype Bayes = Bayes(pos: Side, neg: Side, vocabulary: set<string>)

  datatype Doc = Doc(tokens: set<string>, positive: bool)

  const EMPTY_SIDE := Side(0, map[], 0)
  const EMPTY := Bayes(EMPTY_SIDE, EMPTY_SIDE, {})

  function Incremented(m: map<string, nat>, ws: set<string>): map<string, nat> {
    map w | w in m.Keys + ws :: Get(m, w) + (if w in ws then 1 else 0)
  }

  function Counted(s: Side, ws: set<string>): Side {
    Side(s.docs + 1, Incremented(s.tokens, ws), s.total + |ws|)
  }

  function Added(b: Bayes, d: Doc): Bayes {
    Bayes(if d.positive then Counted(b.pos, d.tokens) else b.pos,
          if d.positive then b.neg else Counted(b.neg, d.tokens),
          b.vocabulary + d.tokens)
  }

  function Trained(docs: seq<Doc>): Bayes {
    if docs == [] then EMPTY else Added(Trained(docs[..|docs| - 1]), docs[|docs| - 1])
  }

  function SideOf(b: Bayes, positive: bool): Side {
    if positive then b.pos else b.neg
  }

  // ----- counts -----

  /** What one document adds to the two counts. */
  function One(d: Doc, positive: bool): nat {
    if d.positive == positive then 1 else 0
  }

  function OneWith(d: Doc, positive: bool, w: string): nat {
    if d.positive == positive && w in d.tokens then 1 else 0
  }

  /** How many documents of a class there are, and how many of them have a token. */
  function Docs(docs: seq<Doc>, positive: bool): nat {
    if docs == [] then 0
    else Docs(docs[..|docs| - 1], positive) + One(docs[|docs| - 1], positive)
  }

  function DocsWith(docs: seq<Doc>, positive: bool, w: string): nat {
    if docs == [] then 0
    else DocsWith(docs[..|docs| - 1], positive, w) + OneWith(docs[|docs| - 1], positive, w)
  }

  /** Every count is the number of documents that it should be, and so no more than there are documents. */
  lemma {:induction false} CountsAreRight(docs: seq<Doc>, positive: bool, w: string)
    ensures var side := SideOf(Trained(docs), positive);
            && side.docs == Docs(docs, positive)
            && Get(side.tokens, w) == DocsWith(docs, positive, w) <= side.docs
            && (w in side.tokens <==> DocsWith(docs, positive, w) > 0)
    decreases |docs|
  {
    if docs != [] {
      CountsAreRight(docs[..|docs| - 1], positive, w);
    }
  }

  /** The vocabulary has the tokens that were counted on either side, and no others. */
  lemma {:induction false} VocabularyIsWhatWasCounted(docs: seq<Doc>)
    ensures var b := Trained(docs); b.vocabulary == b.pos.tokens.Keys + b.neg.tokens.Keys
    decreases |docs|
  {
    if docs != [] {
      VocabularyIsWhatWasCounted(docs[..|docs| - 1]);
    }
  }

  // ----- sums over the vocabulary -----

  lemma {:induction false} SumOfIncremented(all: set<string>, m: map<string, nat>, ws: set<string>)
    ensures Sum(all, Incremented(m, ws)) == Sum(all, m) + |all * ws|
    decreases |all|
  {
    if all != {} {
      var w :| w in all;
      SumWithout(all, m, w);
      SumWithout(all, Incremented(m, ws), w);
      SumOfIncremented(all - {w}, m, ws);
      assert (all - {w}) * ws == (all * ws) - {w};
    } else {
      assert all * ws == {};
    }
  }

  lemma {:induction false} SumOfMore(all: set<string>, more: set<string>, m: map<string, nat>)
    requires m.Keys <= all <= more
    ensures Sum(more, m) == Sum(all, m)
    decreases |more|
  {
    if more != all {
      assert more == all + (more - all);
      var w :| w in more - all;
      SumWithout(more, m, w);
      SumOfMore(all, more - {w}, m);
    }
  }

  /** Each total is the sum of the side's token counts over the vocabulary. */
  lemma {:induction false} TotalsAreSums(docs: seq<Doc>, positive: bool)
    ensures var b := Trained(docs); SideOf(b, positive).total == Sum(b.vocabulary, SideOf(b, positive).tokens)
    decreases |docs|
  {
    if docs != [] {
      var last := docs[|docs| - 1];
      var before, after := Trained(docs[..|docs| - 1]), Trained(docs);
      TotalsAreSums(docs[..|docs| - 1], positive);
      VocabularyIsWhatWasCounted(docs[..|docs| - 1]);
      SumOfMore(before.vocabulary, after.vocabulary, SideOf(before, positive).tokens);
      if last.positive == positive {
        SumOfIncremented(after.vocabulary, SideOf(before, positive).tokens, last.tokens);
        assert after.vocabulary * last.tokens == last.tokens;
      }
    }
  }

  // ----- order does not matter -----

  lemma {:induction false} CountsAreUnordered(a: seq<Doc>, b: seq<Doc>, positive: bool, w: string)
    requires multiset(a) == multiset(b)
    ensures Docs(a, positive) == Docs(b, positive) && DocsWith(a, positive, w) == DocsWith(b, positive, w)
    decreases |a|
  {
    if a == [] {
      assert |multiset(b)| == 0;
    } else {
      var k := FindLast(a, b);
      CountsAreUnordered(a[..|a| - 1], Except(b, k), positive, w);
      CountsWithout(b, k, positive, w);
    }
  }

  lemma {:induction false} CountsWithout(docs: seq<Doc>, k: nat, positive: bool, w: string)
    requires k < |docs|
    ensures var rest := Except(docs, k);
            && Docs(docs, positive) == Docs(rest, positive) + One(docs[k], positive)
            && DocsWith(docs, positive, w) == DocsWith(rest, positive, w) + OneWith(docs[k], positive, w)
    decreases |docs|
  {
    var n := |docs| - 1;
    if k == n {
      ExceptLast(docs);
    } else {
      CountsWithout(docs[..n], k, positive, w);
      ExceptEnds(docs, k);
    }
  }

  /** Two histories with the same documents, in whatever order, train the same model. */
  lemma TrainingIsUnordered(a: seq<Doc>, b: seq<Doc>)
    requires multiset(a) == multiset(b)
    ensures Trained(a) == Trained(b)
  {
    VocabularyIsWhatWasCounted(a);
    VocabularyIsWhatWasCounted(b);
    SidesAreEqual(a, b, true);
    SidesAreEqual(a, b, false);
    TotalsAreSums(a, true);
    TotalsAreSums(a, false);
    TotalsAreSums(b, true);
    TotalsAreSums(b, false);
  }

  lemma SidesAreEqual(a: seq<Doc>, b: seq<Doc>, positive: bool)
    requires multiset(a) == multiset(b)
    ensures SideOf(Trained(a), positive).docs == SideOf(Trained(b), positive).docs
    ensures SideOf(Trained(a), positive).tokens == SideOf(Trained(b), positive).tokens
  {
    forall w
      ensures Get(SideOf(Trained(a), positive).tokens, w) == Get(SideOf(Trained(b), positive).tokens, w)
      ensures w in SideOf(Trained(a), positive).tokens <==> w in SideOf(Trained(b), positive).tokens
      ensures SideOf(Trained(a), positive).docs == SideOf(Trained(b), positive).docs
    {
      CountsAreRight(a, positive, w);
      CountsAreRight(b, positive, w);
      CountsAreUnordered(a, b, positive, w);
    }
    CountsAreRight(a, positive, "");
  }

  // ----- likelihoods and scores -----

  function VocabularySize(b: Bayes): (n: nat)
    ensures n > 0
  {
    if |b.vocabulary| > 1 then |b.vocabulary| else 1
  }

  type PositiveReal = r: real | r > 0.0 witness 1.0

  function Share(n: nat, all: nat): (r: real)
    requires all > 0
    ensures n > 0 ==> r > 0.0
  {
    n as real / all as real
  }

  /** The smoothed share of a token in a class. */
  function Likelihood(b: Bayes, positive: bool, w: string): PositiveReal {
    var side := SideOf(b, positive);
    Share(Get(side.tokens, w) + 1, side.total + VocabularySize(b))
  }

  ghost function SumOver(ws: set<string>, f: string -> real): real {
    if ws == {} then 0.0 else
      var w :| w in ws;
      f(w) + SumOver(ws - {w}, f)
  }

  /** What a share of a whole has to be: additive, and the whole is 1. */
  ghost predicate Sharing(share: int -> real, all: int) {
    share(0) == 0.0 && share(all) == 1.0 && forall a, b {:trigger Additive(share, a, b)} :: Additive(share, a, b)
  }

  predicate Additive(share: int -> real, a: int, b: int) {
    share(a) + share(b) == share(a + b)
  }

  lemma TwoShares(share: int -> real, all: int, a: int, b: int)
    requires Sharing(share, all)
    ensures share(a) + share(b) == share(a + b)
  {
    assert Additive(share, a, b);
  }

  lemma {:induction false} SharesAddUp(ws: set<string>, m: map<string, nat>, f: string -> real, share: int -> real, all: int)
    requires Sharing(share, all) && forall w :: w in ws ==> f(w) == share(Get(m, w) + 1)
    ensures SumOver(ws, f) == share(Sum(ws, m) + |ws|)
    decreases |ws|
  {
    if ws != {} {
      var w :| w in ws && SumOver(ws, f) == f(w) + SumOver(ws - {w}, f);
      SharesAddUp(ws - {w}, m, f, share, all);
      SumWithout(ws, m, w);
      var one, rest := Get(m, w) + 1, Sum(ws - {w}, m) + |ws - {w}|;
      assert one + rest == Sum(ws, m) + |ws|;
      TwoShares(share, all, one, rest);
    }
  }

  lemma QuotientsShare(all: int)
    requires all > 0
    ensures Sharing(n => n as real / all as real, all)
  {
  }

  lemma LikelihoodsOfSum(b: Bayes, positive: bool)
    requires b.vocabulary != {} && SideOf(b, positive).total == Sum(b.vocabulary, SideOf(b, positive).tokens)
    ensures SumOver(b.vocabulary, w => Likelihood(b, positive, w)) == 1.0
  {
    var side := SideOf(b, positive);
    var all := side.total + VocabularySize(b);
    QuotientsShare(all);
    assert VocabularySize(b) == |b.vocabulary|;
    SharesAddUp(b.vocabulary, side.tokens, w => Likelihood(b, positive, w), n => n as real / all as real, all);
  }

  /** After any training with at least one token, the likelihoods of each class are a distribution. */
  lemma LikelihoodsSumToOne(docs: seq<Doc>, positive: bool)
    requires Trained(docs).vocabulary != {}
    ensures SumOver(Trained(docs).vocabulary, w => Likelihood(Trained(docs), positive, w)) == 1.0
  {
    TotalsAreSums(docs, positive);
    LikelihoodsOfSum(Trained(docs), positive);
  }

  /** The factors of a class's weight, given distinct tokens: its share of the documents, then one for each token. */
  function Factors(b: Bayes, positive: bool, tokens: seq<string>): seq<PositiveReal>
    requires b.pos.docs > 0 && b.neg.docs > 0
  {
    if tokens == [] then [Share(SideOf(b, positive).docs, b.pos.docs + b.neg.docs)]
    else Factors(b, positive, tokens[..|tokens| - 1]) + [Likelihood(b, positive, tokens[|tokens| - 1])]
  }

  function Product(fs: seq<PositiveReal>): PositiveReal {
    if fs == [] then 1.0 else
      Positive(Product(fs[..|fs| - 1]), fs[|fs| - 1]);
      Product(fs[..|fs| - 1]) * fs[|fs| - 1]
  }

  function Weight(b: Bayes, positive: bool, tokens: seq<string>): PositiveReal
    requires b.pos.docs > 0 && b.neg.docs > 0
  {
    Product(Factors(b, positive, tokens))
  }

  /**
   The logistic function of log pos - log neg. `limit` stands for e to the 50th: beyond 50 either way the
   difference is cut off.
   */
  function Logistic(pos: real, neg: real, limit: real): real
    requires pos > 0.0 && neg > 0.0
  {
    if pos > limit * neg then 1.0
    else if neg > limit * pos then 0.0
    else pos / (pos + neg)
  }

  function Score(b: Bayes, tokens: seq<string>, limit: real): real {
    if b.pos.docs == 0 || b.neg.docs == 0 then 0.5
    else Logistic(Weight(b, true, tokens), Weight(b, false, tokens), limit)
  }

  lemma NoFactors(b: Bayes)
    requires b.pos.docs > 0 && b.neg.docs > 0
    ensures Weight(b, true, []) == Share(b.pos.docs, b.pos.docs + b.neg.docs)
    ensures Weight(b, false, []) == Share(b.neg.docs, b.pos.docs + b.neg.docs)
  {
    ProductOneMore([], Share(b.pos.docs, b.pos.docs + b.neg.docs));
    ProductOneMore([], Share(b.neg.docs, b.pos.docs + b.neg.docs));
    assert Product([]) == 1.0;
  }

  lemma ProductOneMore(fs: seq<PositiveReal>, f: PositiveReal)
    ensures Product(fs + [f]) == Product(fs) * f
  {
    assert (fs + [f])[..|fs|] == fs;
  }

  lemma FactorsOneMore(b: Bayes, positive: bool, before: seq<string>, w: string)
    requires b.pos.docs > 0 && b.neg.docs > 0
    ensures Weight(b, positive, before + [w]) == Weight(b, positive, before) * Likelihood(b, positive, w)
  {
    assert (before + [w])[..|before|] == before;
    ProductOneMore(Factors(b, positive, before), Likelihood(b, positive, w));
  }

  // ----- the classes are treated alike -----

  function Swapped(b: Bayes): Bayes {
    Bayes(b.neg, b.pos, b.vocabulary)
  }

  function Flip(docs: seq<Doc>): (r: seq<Doc>)
    ensures |r| == |docs|
  {
    seq(|docs|, i requires 0 <= i < |docs| => docs[i].(positive := !docs[i].positive))
  }

  lemma {:induction false} FlippedTraining(docs: seq<Doc>)
    ensures Trained(Flip(docs)) == Swapped(Trained(docs))
    decreases |docs|
  {
    if docs != [] {
      FlippedTraining(docs[..|docs| - 1]);
      assert Flip(docs)[..|docs| - 1] == Flip(docs[..|docs| - 1]);
    }
  }

  lemma {:induction false} SwappedFactors(b: Bayes, positive: bool, tokens: seq<string>)
    requires b.pos.docs > 0 && b.neg.docs > 0
    ensures Factors(Swapped(b), positive, tokens) == Factors(b, !positive, tokens)
    decreases |tokens|
  {
    if tokens != [] {
      SwappedFactors(b, positive, tokens[..|tokens| - 1]);
    }
  }

  lemma More(limit: real, x: real, y: real)
    requires limit > 1.0 && x > 0.0 && y == limit * x
    ensures y > x
  {
    Positive(limit - 1.0, x);
    assert (limit - 1.0) * x == y - x;
  }

  lemma NotBothBeyond(pos: real, neg: real, limit: real)
    requires pos > 0.0 && neg > 0.0 && limit > 1.0
    ensures !(pos > limit * neg && neg > limit * pos)
  {
    var a, b := limit * pos, limit * neg;
    More(limit, pos, a);
    More(limit, neg, b);
  }

  lemma LogisticIsFair(pos: real, neg: real, limit: real)
    requires pos > 0.0 && neg > 0.0 && limit > 1.0
    ensures Logistic(pos, neg, limit) + Logistic(neg, pos, limit) == 1.0
    ensures 0.0 <= Logistic(pos, neg, limit) <= 1.0
  {
    NotBothBeyond(pos, neg, limit);
    var all := pos + neg;
    assert pos / all + neg / all == all / all == 1.0;
    assert 0.0 <= pos / all && 0.0 <= neg / all;
  }

  /** Calling the classes the other way round turns every score into one minus the score. */
  lemma FlippedScore(docs: seq<Doc>, tokens: seq<string>, limit: real)
    requires limit > 1.0
    ensures Score(Trained(Flip(docs)), tokens, limit) == 1.0 - Score(Trained(docs), tokens, limit)
    ensures 0.0 <= Score(Trained(docs), tokens, limit) <= 1.0
  {
    FlippedTraining(docs);
    SwappedScore(Trained(docs), tokens, limit);
  }

  lemma SwappedScore(b: Bayes, tokens: seq<string>, limit: real)
    requires limit > 1.0
    ensures Score(Swapped(b), tokens, limit) == 1.0 - Score(b, tokens, limit)
    ensures 0.0 <= Score(b, tokens, limit) <= 1.0
  {
    if b.pos.docs > 0 && b.neg.docs > 0 {
      SwappedFactors(b, true, tokens);
      SwappedFactors(b, false, tokens);
      LogisticIsFair(Weight(b, true, tokens), Weight(b, false, tokens), limit);
    }
  }
}

/** What a score is worth, said of the documents alone. */
module SpamOdds {
  import opened BayesModel
  import opened Reals
  import opened Sums

  /** How many tokens the documents of a class have, each counted once in a document. */
  function Tokens(docs: seq<Doc>, positive: bool): nat {
    if docs == [] then 0
    else
      var last := docs[|docs| - 1];
      Tokens(docs[..|docs| - 1], positive) + if last.positive == positive then |last.tokens| else 0
  }

  function AllTokens(docs: seq<Doc>): set<string> {
    if docs == [] then {} else AllTokens(docs[..|docs| - 1]) + docs[|docs| - 1].tokens
  }

  function Known(docs: seq<Doc>): nat {
    if AllTokens(docs) == {} then 1 else |AllTokens(docs)|
  }

  /** The size of a class, with one more occurrence of each known token. */
  function Size(docs: seq<Doc>, positive: bool): (n: nat)
    ensures n > 0
  {
    Tokens(docs, positive) + Known(docs)
  }

  /** The share of a token in a class, as if each known token had occurred once more. */
  function Smoothed(docs: seq<Doc>, positive: bool, w: string): (r: real)
    ensures r > 0.0
  {
    (DocsWith(docs, positive, w) + 1) as real / Size(docs, positive) as real
  }

  predicate IsProduct(p: real, a: real, b: real) {
    p == a * b
  }

  /** How much more usual a token is in the positive class than in the other. */
  function Factor(docs: seq<Doc>, w: string): (f: PositiveReal)
    ensures IsProduct(Smoothed(docs, true, w), f, Smoothed(docs, false, w))
  {
    var p, n := Smoothed(docs, true, w), Smoothed(docs, false, w);
    Cancels(p, n);
    p / n
  }

  /** The ratio of the class counts, then how much each token speaks for the positive class. */
  function Evidence(docs: seq<Doc>, tokens: seq<string>): (fs: seq<PositiveReal>)
    requires Docs(docs, true) > 0 && Docs(docs, false) > 0
    ensures |fs| == |tokens| + 1
  {
    if tokens == [] then [Docs(docs, true) as real / Docs(docs, false) as real]
    else
      var n := |tokens| - 1;
      Evidence(docs, tokens[..n]) + [Factor(docs, tokens[n])]
  }

  /** The odds of the positive class for a message with these tokens: the product of the evidence. */
  function Odds(docs: seq<Doc>, tokens: seq<string>): PositiveReal
    requires Docs(docs, true) > 0 && Docs(docs, false) > 0
  {
    Product(Evidence(docs, tokens))
  }

  lemma {:induction false} TrainedSizes(docs: seq<Doc>, positive: bool)
    ensures SideOf(Trained(docs), positive).total == Tokens(docs, positive)
    ensures Trained(docs).vocabulary == AllTokens(docs)
    decreases |docs|
  {
    if docs != [] {
      TrainedSizes(docs[..|docs| - 1], positive);
    }
  }

  lemma LikelihoodOf(b: Bayes, positive: bool, w: string, count: nat, size: nat)
    requires Get(SideOf(b, positive).tokens, w) + 1 == count
    requires SideOf(b, positive).total + VocabularySize(b) == size && size > 0
    ensures Likelihood(b, positive, w) == count as real / size as real
  {
  }

  lemma LikelihoodIs(docs: seq<Doc>, positive: bool, w: string)
    ensures Likelihood(Trained(docs), positive, w) == Smoothed(docs, positive, w)
  {
    CountsAreRight(docs, positive, w);
    TrainedSizes(docs, positive);
    LikelihoodOf(Trained(docs), positive, w, DocsWith(docs, positive, w) + 1, Size(docs, positive));
  }

  lemma Cancels(a: real, b: real)
    requires b > 0.0
    ensures a / b * b == a
  {
  }

  lemma SharesOfTwo(p: real, n: real)
    requires p > 0.0 && n > 0.0
    ensures p / (p + n) == p / n * (n / (p + n))
  {
    Cancels(p, n);
    assert p / n * (n / (p + n)) == (p / n * n) / (p + n);
  }

  lemma FactorOfLikelihoods(docs: seq<Doc>, w: string)
    ensures IsProduct(Likelihood(Trained(docs), true, w), Factor(docs, w), Likelihood(Trained(docs), false, w))
  {
    LikelihoodIs(docs, true, w);
    LikelihoodIs(docs, false, w);
  }

  predicate Multiply(qs: seq<PositiveReal>, ns: seq<PositiveReal>, ps: seq<PositiveReal>) {
    |qs| == |ns| == |ps| && forall i :: 0 <= i < |ps| ==> IsProduct(ps[i], qs[i], ns[i])
  }

  lemma Interchange(a: real, b: real, c: real, d: real)
    ensures (a * b) * (c * d) == (a * c) * (b * d)
  {
  }

  lemma {:induction false} Products(qs: seq<PositiveReal>, ns: seq<PositiveReal>, ps: seq<PositiveReal>)
    requires Multiply(qs, ns, ps)
    ensures Product(ps) == Product(qs) * Product(ns)
    decreases |ps|
  {
    if ps != [] {
      var n := |ps| - 1;
      Products(qs[..n], ns[..n], ps[..n]);
      Interchange(Product(qs[..n]), Product(ns[..n]), qs[n], ns[n]);
    }
  }

  lemma FirstEvidence(docs: seq<Doc>)
    requires Docs(docs, true) > 0 && Docs(docs, false) > 0
    requires Trained(docs).pos.docs == Docs(docs, true) && Trained(docs).neg.docs == Docs(docs, false)
    ensures var b := Trained(docs); Multiply(Evidence(docs, []), Factors(b, false, []), Factors(b, true, []))
  {
    SharesOfTwo(Docs(docs, true) as real, Docs(docs, false) as real);
  }

  lemma MultiplyOneMore(qs: seq<PositiveReal>, ns: seq<PositiveReal>, ps: seq<PositiveReal>,
                        q: PositiveReal, n: PositiveReal, p: PositiveReal)
    requires Multiply(qs, ns, ps) && IsProduct(p, q, n)
    ensures Multiply(qs + [q], ns + [n], ps + [p])
  {
  }

  lemma {:induction false} EvidenceMultiplies(docs: seq<Doc>, tokens: seq<string>)
    requires Docs(docs, true) > 0 && Docs(docs, false) > 0
    requires Trained(docs).pos.docs == Docs(docs, true) && Trained(docs).neg.docs == Docs(docs, false)
    ensures var b := Trained(docs); Multiply(Evidence(docs, tokens), Factors(b, false, tokens), Factors(b, true, tokens))
    decreases |tokens|
  {
    var b := Trained(docs);
    if tokens == [] {
      FirstEvidence(docs);
    } else {
      var before, w := tokens[..|tokens| - 1], tokens[|tokens| - 1];
      EvidenceMultiplies(docs, before);
      FactorOfLikelihoods(docs, w);
      MultiplyOneMore(Evidence(docs, before), Factors(b, false, before), Factors(b, true, before),
                      Factor(docs, w), Likelihood(b, false, w), Likelihood(b, true, w));
    }
  }

  /** The two weights stand in the ratio of the odds. */
  lemma WeightsAreOdds(docs: seq<Doc>, tokens: seq<string>)
    requires Docs(docs, true) > 0 && Docs(docs, false) > 0
    requires Trained(docs).pos.docs == Docs(docs, true) && Trained(docs).neg.docs == Docs(docs, false)
    ensures Weight(Trained(docs), true, tokens) == Odds(docs, tokens) * Weight(Trained(docs), false, tokens)
  {
    var b := Trained(docs);
    EvidenceMultiplies(docs, tokens);
    Products(Evidence(docs, tokens), Factors(b, false, tokens), Factors(b, true, tokens));
  }

  /**
   A score for these odds: they are the score over one minus the score, unless they are beyond the cut-off, and the
   score is above one half exactly when they are above 1.
   */
  predicate IsScore(score: real, odds: real, limit: real) {
    && 0.0 <= score <= 1.0
    && (score == 1.0 <==> odds > limit) && (score == 0.0 <==> odds * limit < 1.0)
    && (0.0 < score < 1.0 ==> score / (1.0 - score) == odds)
    && (score > 0.5 <==> odds > 1.0) && (score < 0.5 <==> odds < 1.0)
  }

  lemma Beyond(pos: real, neg: real, odds: real, limit: real)
    requires neg > 0.0 && pos == odds * neg && limit > 1.0
    ensures pos > limit * neg <==> odds > limit
    ensures neg > limit * pos <==> odds * limit < 1.0
    ensures pos > neg <==> odds > 1.0
    ensures pos < neg <==> odds < 1.0
  {
    assert pos - limit * neg == (odds - limit) * neg;
    assert neg - limit * pos == (1.0 - odds * limit) * neg;
    assert pos - neg == (odds - 1.0) * neg;
    SignOfProduct(odds - limit, neg);
    SignOfProduct(1.0 - odds * limit, neg);
    SignOfProduct(odds - 1.0, neg);
  }

  lemma SignOfProduct(a: real, b: real)
    requires b > 0.0
    ensures a * b > 0.0 <==> a > 0.0
    ensures a * b < 0.0 <==> a < 0.0
  {
  }

  lemma Scaled(x: real, y: real, z: real)
    requires z > 0.0
    ensures (x * y) / z == x * (y / z)
  {
  }

  lemma PartsOfWhole(pos: real, neg: real)
    requires pos > 0.0 && neg > 0.0
    ensures var all := pos + neg; pos / all + neg / all == 1.0 && pos / all > 0.0 && neg / all > 0.0
  {
    var all := pos + neg;
    assert pos / all + neg / all == all / all == 1.0;
  }

  lemma SameWhole(a: real, b: real, all: real)
    requires all > 0.0
    ensures a / all > b / all <==> a > b
  {
    Cancels(a, all);
    Cancels(b, all);
    assert (a / all - b / all) * all == a - b;
    SignOfProduct(a / all - b / all, all);
  }

  lemma RatioIs(pos: real, neg: real, odds: real)
    requires pos > 0.0 && neg > 0.0 && pos == odds * neg
    ensures var score := pos / (pos + neg);
            && 0.0 < score < 1.0 && score / (1.0 - score) == odds
            && (score > 0.5 <==> pos > neg) && (score < 0.5 <==> pos < neg)
  {
    var all := pos + neg;
    var score, rest := pos / all, neg / all;
    PartsOfWhole(pos, neg);
    Scaled(odds, neg, all);
    assert score == odds * rest && rest == 1.0 - score;
    Scaled(odds, rest, rest);
    SameWhole(pos, neg, all);
    SameWhole(neg, pos, all);
  }

  lemma LogisticIsScore(pos: real, neg: real, odds: real, limit: real)
    requires pos > 0.0 && neg > 0.0 && pos == odds * neg && limit > 1.0
    ensures IsScore(Logistic(pos, neg, limit), odds, limit)
  {
    Beyond(pos, neg, odds, limit);
    RatioIs(pos, neg, odds);
    LimitsApart(odds, limit);
  }

  lemma LimitsApart(odds: real, limit: real)
    requires limit > 1.0
    ensures odds > limit ==> odds > 1.0 && odds * limit > 1.0
    ensures odds > 0.0 && odds * limit < 1.0 ==> odds < 1.0
  {
    if odds > limit {
      assert (odds - 1.0) * limit > 0.0;
    }
    if odds > 0.0 && odds * limit < 1.0 {
      assert odds * (limit - 1.0) > 0.0;
    }
  }

  /** A message's score comes from the odds that the documents give it. */
  lemma ScoreIsOdds(docs: seq<Doc>, tokens: seq<string>, limit: real)
    requires Docs(docs, true) > 0 && Docs(docs, false) > 0 && limit > 1.0
    ensures IsScore(Score(Trained(docs), tokens, limit), Odds(docs, tokens), limit)
  {
    CountsAreRight(docs, true, "");
    CountsAreRight(docs, false, "");
    WeightsAreOdds(docs, tokens);
    var b := Trained(docs);
    LogisticIsScore(Weight(b, true, tokens), Weight(b, false, tokens), Odds(docs, tokens), limit);
  }

  const TWO_DOCS := [Doc({"win"}, true), Doc({"hello"}, false)]

  lemma TwoDocs()
    ensures Docs(TWO_DOCS, true) == 1 && Docs(TWO_DOCS, false) == 1
    ensures DocsWith(TWO_DOCS, true, "win") == 1 && DocsWith(TWO_DOCS, false, "win") == 0
    ensures Size(TWO_DOCS, true) == 3 && Size(TWO_DOCS, false) == 3
  {
    var one := [TWO_DOCS[0]];
    assert TWO_DOCS[..1] == one && one[..0] == [];
    assert "win" != "hello" by {
      assert |"win"| != |"hello"|;
    }
    assert Docs(one, true) == 1 && Docs(one, false) == 0 && Tokens(one, true) == 1 && Tokens(one, false) == 0;
    assert DocsWith(one, true, "win") == 1 && DocsWith(one, false, "win") == 0;
    assert AllTokens(one) == {"win"} && AllTokens(TWO_DOCS) == {"win", "hello"};
  }

  lemma OddsOfWin()
    ensures Docs(TWO_DOCS, true) > 0 && Docs(TWO_DOCS, false) > 0 && Odds(TWO_DOCS, ["win"]) == 2.0
  {
    TwoDocs();
    assert ["win"][..0] == [];
    assert Factor(TWO_DOCS, "win") == 2.0;
    ProductOneMore([1.0], 2.0);
    ProductOneMore([], 1.0);
    assert Evidence(TWO_DOCS, ["win"]) == [1.0] + [2.0] && [] + [1.0] == [1.0];
  }

  lemma ScoreFromOdds(score: real, odds: real, limit: real)
    requires IsScore(score, odds, limit) && odds == 2.0 && limit >= 2.0
    ensures score * 3.0 == 2.0
  {
    FromOdds(score);
  }

  /** After one spam message about winning and one other, a message about winning is spam at two to one. */
  lemma WinIsSpam(limit: real)
    requires limit >= 2.0
    ensures Score(Trained(TWO_DOCS), ["win"], limit) * 3.0 == 2.0
  {
    OddsOfWin();
    ScoreIsOdds(TWO_DOCS, ["win"], limit);
    ScoreFromOdds(Score(Trained(TWO_DOCS), ["win"], limit), Odds(TWO_DOCS, ["win"]), limit);
  }

  lemma FromOdds(score: real)
    requires 0.0 < score < 1.0 && score / (1.0 - score) == 2.0
    ensures score * 3.0 == 2.0
  {
    Cancels(score, 1.0 - score);
  }

  // ----- what learning does to a token -----

  function With(docs: seq<Doc>, positive: bool, w: string): (n: nat)
    ensures n > 0
  {
    DocsWith(docs, positive, w) + 1
  }

  lemma Crossed(f: real, p: real, a: real, n: real, b: real)
    requires a > 0.0 && b > 0.0 && IsProduct(p / a, f, n / b)
    ensures p * b == f * (n * a)
  {
    Cancels(p, a);
    Cancels(n, b);
    assert (p / a * a) * b == (f * (n / b)) * (a * b);
    assert (f * (n / b)) * (a * b) == f * (n / b * b * a);
  }

  /** f is p of a over n of b. */
  predicate IsFactor(f: real, p: nat, a: nat, n: nat, b: nat) {
    p as real * b as real == f * (n as real * a as real)
  }

  /** p times b times a is no less than the other product. */
  predicate NoLess(p: nat, b: nat, a: nat, p': nat, b': nat, a': nat) {
    p * b * a >= p' * b' * a'
  }

  /** A token's factor without its inner quotients. */
  lemma FactorCrossed(docs: seq<Doc>, w: string)
    ensures IsFactor(Factor(docs, w), With(docs, true, w), Size(docs, true), With(docs, false, w), Size(docs, false))
  {
    Crossed(Factor(docs, w), With(docs, true, w) as real, Size(docs, true) as real,
            With(docs, false, w) as real, Size(docs, false) as real);
  }

  lemma CompareQuotients(f: real, x: real, y: real, f': real, x': real, y': real)
    requires x == f * y && x' == f' * y' && y > 0.0 && y' > 0.0
    ensures f' >= f <==> x' * y >= x * y'
  {
    Positive(y, y');
    assert x' * y - x * y' == (f' - f) * (y * y');
    SignOfProduct(f' - f, y * y');
  }

  lemma RealProducts(a: nat, b: nat, c: nat)
    ensures (a * b * c) as real == a as real * b as real * c as real
  {
    assert (a * b) as real == a as real * b as real;
  }

  lemma CompareCrossed(p: nat, a: nat, n: nat, b: nat, p': nat, a': nat, b': nat, f: real, f': real)
    requires a > 0 && n > 0 && a' > 0
    requires IsFactor(f, p, a, n, b) && IsFactor(f', p', a', n, b')
    ensures f' >= f <==> NoLess(p', b', a, p, b, a')
  {
    var x, y := p as real * b as real, n as real * a as real;
    var x', y' := p' as real * b' as real, n as real * a' as real;
    Positive(n as real, a as real);
    Positive(n as real, a' as real);
    CompareQuotients(f, x, y, f', x', y');
    var left, right := p' as real * b' as real * a as real, p as real * b as real * a' as real;
    RealProducts(p', b', a);
    RealProducts(p, b, a');
    assert x' * y - x * y' == (left - right) * n as real;
    SignOfProduct(left - right, n as real);
  }

  /** With the same sizes, a token that more positive documents have speaks no less for the positive class. */
  lemma FactorGrows(docs: seq<Doc>, more: seq<Doc>, w: string)
    requires DocsWith(docs, true, w) <= DocsWith(more, true, w) && DocsWith(docs, false, w) == DocsWith(more, false, w)
    requires Size(docs, true) == Size(more, true) && Size(docs, false) == Size(more, false)
    ensures Factor(docs, w) <= Factor(more, w)
  {
    FactorCrossed(docs, w);
    FactorCrossed(more, w);
    var p, p', a, b := With(docs, true, w), With(more, true, w), Size(docs, true), Size(docs, false);
    CompareCrossed(p, a, With(docs, false, w), b, p', a, b, Factor(docs, w), Factor(more, w));
    Grows(p, p', b, a);
  }

  lemma Grows(p: nat, q: nat, b: nat, a: nat)
    requires p <= q
    ensures NoLess(q, b, a, p, b, a)
  {
    assert (q - p) * b * a >= 0;
  }

  lemma OneMoreDoc(docs: seq<Doc>, d: Doc, w: string)
    requires d.positive && w in d.tokens
    ensures With(docs + [d], true, w) == With(docs, true, w) + 1 && With(docs + [d], false, w) == With(docs, false, w)
    ensures Tokens(docs + [d], true) == Tokens(docs, true) + |d.tokens|
    ensures Tokens(docs + [d], false) == Tokens(docs, false)
    ensures AllTokens(docs + [d]) == AllTokens(docs) + d.tokens
  {
    assert (docs + [d])[..|docs|] == docs;
  }

  /**
   A further positive document does not lower the factor of one of its tokens exactly when this holds of the counts,
   where `grown` is the number of known tokens that it adds: a long document can make its tokens less telling.
   */
  lemma LearningRaisesFactorIff(docs: seq<Doc>, d: Doc, w: string)
    requires d.positive && w in d.tokens
    ensures var grown := Known(docs + [d]) - Known(docs);
            var p, a, b := With(docs, true, w), Size(docs, true), Size(docs, false);
            Factor(docs + [d], w) >= Factor(docs, w) <==>
            NoLess(p + 1, b + grown, a, p, b, a + |d.tokens| + grown)
  {
    OneMoreDoc(docs, d, w);
    FactorCrossed(docs, w);
    FactorCrossed(docs + [d], w);
    CompareCrossed(With(docs, true, w), Size(docs, true), With(docs, false, w), Size(docs, false),
                   With(docs + [d], true, w), Size(docs + [d], true), Size(docs + [d], false),
                   Factor(docs, w), Factor(docs + [d], w));
  }

  /** If all its tokens are known: exactly when it is not too long for how usual the token is already. */
  lemma KnownTokensRaiseFactorIff(docs: seq<Doc>, d: Doc, w: string)
    requires d.positive && w in d.tokens && d.tokens <= AllTokens(docs)
    ensures Factor(docs + [d], w) >= Factor(docs, w) <==> Size(docs, true) >= With(docs, true, w) * |d.tokens|
  {
    OneMoreDoc(docs, d, w);
    assert AllTokens(docs) + d.tokens == AllTokens(docs);
    LearningRaisesFactorIff(docs, d, w);
    KnownCounts(With(docs, true, w), Size(docs, true), Size(docs, false), |d.tokens|);
  }

  /** So one more spam message about winning, which also says hello, lowers what winning counts for. */
  lemma LearningCanLowerFactor()
    ensures Factor(TWO_DOCS + [Doc({"win", "hello"}, true)], "win") < Factor(TWO_DOCS, "win")
  {
    TwoDocs();
    var d := Doc({"win", "hello"}, true);
    assert TWO_DOCS[..1] == [TWO_DOCS[0]] && AllTokens([TWO_DOCS[0]]) == {"win"};
    assert |d.tokens| == 2 by {
      assert |"win"| != |"hello"|;
    }
    KnownTokensRaiseFactorIff(TWO_DOCS, d, "win");
  }

  lemma KnownCounts(p: nat, a: nat, b: nat, k: nat)
    requires b > 0
    ensures NoLess(p + 1, b, a, p, b, a + k) <==> a >= p * k
  {
    assert (p + 1) * b * a - p * b * (a + k) == b * (a - p * k);
    if a >= p * k {
      assert b * (a - p * k) >= 0;
    } else {
      assert b * (a - p * k) < 0;
    }
  }

  /** Without documents of both classes nothing is known. */
  lemma ScoreOfNothing(docs: seq<Doc>, tokens: seq<string>, limit: real)
    requires Docs(docs, true) == 0 || Docs(docs, false) == 0
    ensures Score(Trained(docs), tokens, limit) == 0.5
  {
    CountsAreRight(docs, true, "");
    CountsAreRight(docs, false, "");
  }

  /** The score of a message whose distinct clean tokens are these, after these documents. */
  predicate RightScore(score: real, docs: seq<Doc>, tokens: seq<string>, limit: real) {
    if Docs(docs, true) == 0 || Docs(docs, false) == 0 then score == 0.5
    else limit > 1.0 ==> IsScore(score, Odds(docs, tokens), limit)
  }

  lemma ScoreIsRight(docs: seq<Doc>, tokens: seq<string>, limit: real)
    ensures RightScore(Score(Trained(docs), tokens, limit), docs, tokens, limit)
  {
    if Docs(docs, true) == 0 || Docs(docs, false) == 0 {
      ScoreOfNothing(docs, tokens, limit);
    } else if limit > 1.0 {
      ScoreIsOdds(docs, tokens, limit);
    }
  }
}

/** binaryBayesModel as it is updated. */
module TriageBayes {
  import opened Sequences
  import opened Sums
  import opened Text
  import opened BayesModel
  import opened SpamOdds

  function CleanToken(token: string): string {
    TrimSpace(Lower(token))
  }

  /** The tokens that count: trimmed, in lower case, not blank, each where it first occurs. */
  function CleanTokens(tokens: seq<string>): (clean: seq<string>)
    ensures "" !in clean
    ensures forall i, j :: 0 <= i < j < |clean| ==> clean[i] != clean[j]
  {
    if tokens == [] then [] else
      var before, token := CleanTokens(tokens[..|tokens| - 1]), CleanToken(tokens[|tokens| - 1]);
      if token == "" || token in before then before else before + [token]
  }

  function IsCleanOf(w: string): string -> bool {
    token => CleanToken(token) == w
  }

  /** They are the tokens that are given, trimmed and in lower case, but for blank ones. */
  lemma {:induction false} CleanTokensAre(tokens: seq<string>, w: string)
    ensures w in CleanTokens(tokens) <==> w != "" && Any(tokens, IsCleanOf(w))
    decreases |tokens|
  {
    if tokens != [] {
      CleanTokensAre(tokens[..|tokens| - 1], w);
      AnyLast(tokens, IsCleanOf(w));
    }
  }

  function TokenSet(clean: seq<string>): set<string> {
    set w | w in clean
  }

  lemma CleanOneMore(tokens: seq<string>, i: nat)
    requires i < |tokens|
    ensures var before, token := CleanTokens(tokens[..i]), CleanToken(tokens[i]);
            && CleanTokens(tokens[..i + 1]) == (if token == "" || token in before then before else before + [token])
            && TokenSet(CleanTokens(tokens[..i + 1])) == TokenSet(before) + (if token == "" then {} else {token})
            && (token in TokenSet(before) <==> token in before)
  {
    assert tokens[..i + 1][..i] == tokens[..i];
  }

  lemma IncrementedByNone(m: map<string, nat>)
    ensures Incremented(m, {}) == m
  {
  }

  lemma IncrementedOneMore(m: map<string, nat>, ws: set<string>, w: string)
    requires w !in ws
    ensures Incremented(m, ws + {w}) == Incremented(m, ws)[w := Get(Incremented(m, ws), w) + 1]
  {
  }

  lemma CountedOneMore(s: Side, ws: set<string>, w: string)
    requires w !in ws
    ensures var c := Counted(s, ws);
            Counted(s, ws + {w}) == Side(c.docs, c.tokens[w := Get(c.tokens, w) + 1], c.total + 1)
  {
    IncrementedOneMore(s.tokens, ws, w);
    assert |ws + {w}| == |ws| + 1;
  }

  class Model {
    var posDocs: nat
    var negDocs: nat
    var posTokens: map<string, nat>
    var negTokens: map<string, nat>
    var posTotal: nat
    var negTotal: nat
    var vocabulary: set<string>

    function State(): Bayes
      reads this
    {
      Bayes(Side(posDocs, posTokens, posTotal), Side(negDocs, negTokens, negTotal), vocabulary)
    }

    constructor ()
      ensures State() == EMPTY
    {
      posDocs, negDocs, posTokens, negTokens, posTotal, negTotal, vocabulary := 0, 0, map[], map[], 0, 0, {};
    }

    /** Counts a token that the document has not had before: `seen` are those it has had. */
    method Count(token: string, positive: bool, ghost before: Bayes, ghost seen: set<string>)
      requires token !in seen && State() == Added(before, Doc(seen, positive))
      modifies this
      ensures State() == Added(before, Doc(seen + {token}, positive))
    {
      vocabulary := vocabulary + {token};
      if positive {
        posTokens := posTokens[token := Get(posTokens, token) + 1];
        posTotal := posTotal + 1;
      } else {
        negTokens := negTokens[token := Get(negTokens, token) + 1];
        negTotal := negTotal + 1;
      }
      CountedOneMore(SideOf(before, positive), seen, token);
      assert before.vocabulary + (seen + {token}) == (before.vocabulary + seen) + {token};
    }

    /** Counts a document, of whose tokens none has been counted yet. */
    method CountDoc(positive: bool)
      modifies this`posDocs, this`negDocs
      ensures State() == Added(old(State()), Doc({}, positive))
    {
      if positive {
        posDocs := posDocs + 1;
      } else {
        negDocs := negDocs + 1;
      }
      IncrementedByNone(SideOf(old(State()), positive).tokens);
    }

    /** One document; an empty token list is not one. */
    method Add(tokens: seq<string>, positive: bool)
      modifies this
      ensures State() == if tokens == [] then old(State())
                         else Added(old(State()), Doc(TokenSet(CleanTokens(tokens)), positive))
    {
      if |tokens| == 0 {
        return;
      }
      var seen: set<string> := {};
      ghost var before := State();
      CountDoc(positive);
      for i := 0 to |tokens|
        invariant seen == TokenSet(CleanTokens(tokens[..i]))
        invariant State() == Added(before, Doc(seen, positive))
      {
        var clean := CleanToken(tokens[i]);
        CleanOneMore(tokens, i);
        if clean == "" {
          continue;
        }
        if clean in seen {
          continue;
        }
        Count(clean, positive, before, seen);
        seen := seen + {clean};
      }
      assert tokens[..|tokens|] == tokens;
    }

    /** The weights of the two classes with one more token. */
    method Weigh(pos: real, neg: real, token: string, ghost before: seq<string>) returns (pos': real, neg': real)
      requires posDocs > 0 && negDocs > 0
      requires pos == Weight(State(), true, before) && neg == Weight(State(), false, before)
      ensures pos' == Weight(State(), true, before + [token]) && neg' == Weight(State(), false, before + [token])
    {
      var vocabSize := if |vocabulary| > 1 then |vocabulary| else 1;
      pos' := pos * Share(Get(posTokens, token) + 1, posTotal + vocabSize);
      neg' := neg * Share(Get(negTokens, token) + 1, negTotal + vocabSize);
      FactorsOneMore(State(), true, before, token);
      FactorsOneMore(State(), false, before, token);
    }

    method ScoreOf(tokens: seq<string>, limit: real) returns (score: real)
      ensures score == Score(State(), CleanTokens(tokens), limit)
      ensures forall docs :: State() == Trained(docs) ==> RightScore(score, docs, CleanTokens(tokens), limit)
    {
      forall docs | State() == Trained(docs)
        ensures RightScore(Score(State(), CleanTokens(tokens), limit), docs, CleanTokens(tokens), limit)
      {
        ScoreIsRight(docs, CleanTokens(tokens), limit);
      }
      if posDocs == 0 || negDocs == 0 {
        return 0.5;
      }
      var pos := Share(posDocs, posDocs + negDocs);
      var neg := Share(negDocs, posDocs + negDocs);
      NoFactors(State());
      var seen: set<string> := {};
      ghost var counted: seq<string> := [];
      for i := 0 to |tokens|
        invariant counted == CleanTokens(tokens[..i]) && seen == TokenSet(counted)
        invariant pos == Weight(State(), true, counted) && neg == Weight(State(), false, counted)
      {
        var clean := CleanToken(tokens[i]);
        CleanOneMore(tokens, i);
        if clean == "" || clean in seen {
          continue;
        }
        seen := seen + {clean};
        pos, neg := Weigh(pos, neg, clean, counted);
        counted := counted + [clean];
      }
      assert tokens[..|tokens|] == tokens;
      score := Logistic(pos, neg, limit);
    }
  }
}
