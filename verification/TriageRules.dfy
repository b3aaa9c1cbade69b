/**
 Deterministic rules learned from reviews (internal/mailtriage/model.go, distill.go). Strings are sequences of
 code points here; cleaning a sender, the lists of allowed keys and Unicode case folding are parameters.
 */
module RuleModel {
  import opened Order
  import opened Sequences
  import opened Sorting

  /** A review whose action is cleaned and not empty; the sender is "" if there is none. */
  datatype Review = Review(sender: string, action: string)

  /** A reviewed action under a key: the sender, or the sender's domain. */
  datatype Pair = Pair(key: string, action: string)

  /** What follows the last at sign, "" without one. */
  function Domain(sender: string): string {
    if sender == "" then ""
    else if sender[|sender| - 1] == '@' then ""
    else if '@' in sender then Domain(sender[..|sender| - 1]) + [sender[|sender| - 1]]
    else ""
  }

  function SenderPair(r: Review): seq<Pair> {
    if r.sender == "" then [] else [Pair(r.sender, r.action)]
  }

  function DomainPair(r: Review): seq<Pair> {
    if Domain(r.sender) == "" then [] else [Pair(Domain(r.sender), r.action)]
  }

  function PairsOf(reviews: seq<Review>, pair: Review -> seq<Pair>): seq<Pair> {
    if reviews == [] then [] else PairsOf(reviews[..|reviews| - 1], pair) + pair(reviews[|reviews| - 1])
  }

  function SenderPairs(reviews: seq<Review>): seq<Pair> {
    PairsOf(reviews, SenderPair)
  }

  function DomainPairs(reviews: seq<Review>): seq<Pair> {
    PairsOf(reviews, DomainPair)
  }

  datatype Scope = DomainScope | SenderScope

  datatype Rule = Rule(scope: Scope, key: string, action: string, support: nat)

  /** All reviews with this key have this action, and there are so many of them. */
  ghost predicate Unanimous(ps: multiset<Pair>, key: string, action: string, support: nat) {
    ps[Pair(key, action)] == support && forall other :: other != action ==> Pair(key, other) !in ps
  }

  /** The action that a rule prescribes: one of the four known ones, or else none. */
  function ToAction(action: string): string {
    if action in {"inbox", "cc", "archive", "trash"} then action else ""
  }

  datatype Allowed = Allowed(sender: string -> bool, domain: (string, string) -> bool)

  const SENDER_SUPPORT := 4
  const DOMAIN_SUPPORT := 8

  /** Why there is a rule: the reviewed action and how it was learned. */
  ghost predicate Learned(r: Rule, action: string, reviews: seq<Review>, allowed: Allowed) {
    && r.action == ToAction(action)
    && match r.scope
       case SenderScope =>
         && r.support >= SENDER_SUPPORT && allowed.sender(r.key)
         && Unanimous(multiset(SenderPairs(reviews)), r.key, action, r.support)
       case DomainScope =>
         && r.support >= DOMAIN_SUPPORT && allowed.domain(r.key, action)
         && Unanimous(multiset(DomainPairs(reviews)), r.key, action, r.support)
  }

  ghost predicate IsRule(r: Rule, reviews: seq<Review>, allowed: Allowed) {
    exists action :: Learned(r, action, reviews, allowed)
  }

  /** Domain rules first, then the best supported, then by key. */
  predicate Precedes(a: Rule, b: Rule) {
    if a.scope != b.scope then a.scope == DomainScope
    else if a.support != b.support then a.support > b.support
    else Less(a.key, b.key)
  }

  ghost predicate RulesOf(rules: seq<Rule>, reviews: seq<Review>, allowed: Allowed) {
    Sorted(rules, Precedes) && forall r :: r in rules <==> IsRule(r, reviews, allowed)
  }

  lemma {:induction false} PairIsThere(reviews: seq<Review>, i: nat, pair: Review -> seq<Pair>, p: Pair)
    requires i < |reviews| && p in pair(reviews[i])
    ensures p in PairsOf(reviews, pair)
    decreases |reviews|
  {
    if i < |reviews| - 1 {
      PairIsThere(reviews[..|reviews| - 1], i, pair, p);
    }
  }

  /** The action that an action word stands for. */
  predicate Means(word: string, action: string) {
    && (word == "inbox" ==> action == "inbox") && (word == "cc" ==> action == "cc")
    && (word == "archive" ==> action == "archive") && (word == "trash" ==> action == "trash")
    && (word != "inbox" && word != "cc" && word != "archive" && word != "trash" ==> action == "")
  }

  /** A rule prescribes what every review of its sender, or of a sender of its domain, says. */
  lemma RuleSaysWhatReviewsSay(r: Rule, reviews: seq<Review>, allowed: Allowed, i: nat)
    requires IsRule(r, reviews, allowed) && i < |reviews| && r.key != ""
    requires if r.scope == SenderScope then reviews[i].sender == r.key
             else reviews[i].sender != "" && Domain(reviews[i].sender) == r.key
    ensures Means(reviews[i].action, r.action)
    ensures r.support >= if r.scope == SenderScope then 4 else 8
  {
    var action :| Learned(r, action, reviews, allowed);
    var p := Pair(r.key, reviews[i].action);
    if r.scope == SenderScope {
      PairIsThere(reviews, i, SenderPair, p);
      assert p in multiset(SenderPairs(reviews));
    } else {
      PairIsThere(reviews, i, DomainPair, p);
      assert p in multiset(DomainPairs(reviews));
    }
  }

  // ----- the list depends on the multiset of reviews only -----

  lemma LastPair(reviews: seq<Review>, pair: Review -> seq<Pair>)
    requires reviews != []
    ensures multiset(PairsOf(reviews, pair)) ==
            multiset(PairsOf(reviews[..|reviews| - 1], pair)) + multiset(pair(reviews[|reviews| - 1]))
  {
  }

  lemma {:induction false} PairsWithout(reviews: seq<Review>, k: nat, pair: Review -> seq<Pair>)
    requires k < |reviews|
    ensures multiset(PairsOf(reviews, pair)) ==
            multiset(PairsOf(Except(reviews, k), pair)) + multiset(pair(reviews[k]))
    decreases |reviews|
  {
    var n := |reviews| - 1;
    LastPair(reviews, pair);
    if k == n {
      ExceptLast(reviews);
    } else {
      PairsWithout(reviews[..n], k, pair);
      ExceptEnds(reviews, k);
      LastPair(Except(reviews, k), pair);
      assert reviews[..n][k] == reviews[k];
      AddedLast(multiset(PairsOf(reviews[..n], pair)), multiset(PairsOf(Except(reviews[..n], k), pair)),
                multiset(pair(reviews[k])), multiset(pair(reviews[n])));
    }
  }

  lemma AddedLast(all: multiset<Pair>, rest: multiset<Pair>, one: multiset<Pair>, last: multiset<Pair>)
    requires all == rest + one
    ensures all + last == (rest + last) + one
  {
  }

  lemma {:induction false} PairsAreUnordered(a: seq<Review>, b: seq<Review>, pair: Review -> seq<Pair>)
    requires multiset(a) == multiset(b)
    ensures multiset(PairsOf(a, pair)) == multiset(PairsOf(b, pair))
    decreases |a|
  {
    if a == [] {
      assert |multiset(b)| == 0;
    } else {
      var k := FindLast(a, b);
      PairsAreUnordered(a[..|a| - 1], Except(b, k), pair);
      PairsWithout(b, k, pair);
      LastPair(a, pair);
    }
  }

  lemma PrecedesOnce(a: Rule, b: Rule)
    ensures !(Precedes(a, b) && Precedes(b, a))
    ensures a.scope != b.scope || a.key != b.key ==> Precedes(a, b) || Precedes(b, a)
  {
    LessTotal(a.key, b.key);
  }

  lemma PrecedesIsTransitive()
    ensures Transitive(Precedes)
  {
    forall a, b, c | Precedes(a, b) && Precedes(b, c)
      ensures Precedes(a, c)
    {
      if Less(a.key, b.key) && Less(b.key, c.key) {
        LessTransitive(a.key, b.key, c.key);
      }
    }
  }

  /** The rule list is a function of the multiset of reviews: neither their order nor a map's matters. */
  lemma RulesAreUnordered(a: seq<Review>, b: seq<Review>, allowed: Allowed, rules: seq<Rule>, others: seq<Rule>)
    requires multiset(a) == multiset(b) && RulesOf(rules, a, allowed) && RulesOf(others, b, allowed)
    ensures rules == others
  {
    PairsAreUnordered(a, b, SenderPair);
    PairsAreUnordered(a, b, DomainPair);
    forall r
      ensures r in rules <==> r in others
    {
      assert forall action :: Learned(r, action, a, allowed) <==> Learned(r, action, b, allowed);
    }
    forall x, y | x in rules && y in rules
      ensures !(Precedes(x, y) && Precedes(y, x))
    {
      PrecedesOnce(x, y);
    }
    SortedOnce(rules, others, Precedes);
  }

  // ----- rules that match the same message -----

  lemma {:induction false} DomainOfReview(reviews: seq<Review>, key: string, action: string)
    requires Pair(key, action) in multiset(SenderPairs(reviews)) && Domain(key) != ""
    ensures Pair(Domain(key), action) in multiset(DomainPairs(reviews))
    decreases |reviews|
  {
    var before, last := reviews[..|reviews| - 1], reviews[|reviews| - 1];
    if Pair(key, action) in SenderPairs(before) {
      DomainOfReview(before, key, action);
    } else {
      assert SenderPair(last) == [Pair(key, action)];
    }
  }

  /** A sender's rule and the rule of its domain prescribe the same action. */
  lemma SenderAgreesWithDomain(s: Rule, d: Rule, reviews: seq<Review>, allowed: Allowed)
    requires IsRule(s, reviews, allowed) && s.scope == SenderScope
    requires IsRule(d, reviews, allowed) && d.scope == DomainScope && d.key == Domain(s.key) != ""
    ensures s.action == d.action && s.support <= d.support
  {
    var a :| Learned(s, a, reviews, allowed);
    var b :| Learned(d, b, reviews, allowed);
    assert Pair(s.key, a) in multiset(SenderPairs(reviews));
    DomainOfReview(reviews, s.key, a);
    SupportOfDomain(reviews, s.key, a);
  }

  lemma {:induction false} SupportOfDomain(reviews: seq<Review>, key: string, action: string)
    requires Domain(key) != ""
    ensures multiset(SenderPairs(reviews))[Pair(key, action)] <= multiset(DomainPairs(reviews))[Pair(Domain(key), action)]
    decreases |reviews|
  {
    if reviews != [] {
      SupportOfDomain(reviews[..|reviews| - 1], key, action);
    }
  }

  // ----- matching -----

  function Fold(fold: char -> char, s: string): (r: string)
    ensures |r| == |s|
  {
    if s == "" then "" else Fold(fold, s[..|s| - 1]) + [fold(s[|s| - 1])]
  }

  /** Unicode case folding keeps lower-case ASCII, and nothing else folds to an at sign. */
  ghost predicate Folding(fold: char -> char) {
    && (forall c :: Plain(c) ==> fold(c) == c)
    && (forall c {:trigger fold(c)} :: fold(c) == '@' ==> c == '@')
  }

  predicate Plain(c: char) {
    (c as int) < 128 && !('A' <= c <= 'Z')
  }

  predicate PlainKey(s: string) {
    forall i :: 0 <= i < |s| ==> Plain(s[i])
  }

  lemma {:induction false} PlainFolds(fold: char -> char, s: string)
    requires Folding(fold) && PlainKey(s)
    ensures Fold(fold, s) == s
    decreases |s|
  {
    if s != "" {
      PlainFolds(fold, s[..|s| - 1]);
      assert Plain(s[|s| - 1]);
      assert s == s[..|s| - 1] + [s[|s| - 1]];
    }
  }

  lemma {:induction false} FoldHasAt(fold: char -> char, s: string)
    requires Folding(fold)
    ensures '@' in Fold(fold, s) <==> '@' in s
    decreases |s|
  {
    if s != "" {
      FoldHasAt(fold, s[..|s| - 1]);
      assert Plain('@');
      assert s == s[..|s| - 1] + [s[|s| - 1]];
    }
  }

  /** Folding a sender folds its domain. */
  lemma {:induction false} FoldDomain(fold: char -> char, s: string)
    requires Folding(fold)
    ensures Domain(Fold(fold, s)) == Fold(fold, Domain(s))
    decreases |s|
  {
    if s != "" {
      var before, last := s[..|s| - 1], s[|s| - 1];
      var f := Fold(fold, s);
      FoldDomain(fold, before);
      FoldHasAt(fold, s);
      assert Plain('@');
      assert f[|f| - 1] == fold(last) && f[..|f| - 1] == Fold(fold, before);
      if last != '@' && '@' in s {
        var d := Domain(s);
        assert d[..|d| - 1] == Domain(before);
      }
    }
  }

  /** matchDeterministicRule on one rule; `sender` is the message's, cleaned. */
  predicate MatchesRule(fold: char -> char, r: Rule, sender: string) {
    match r.scope
    case SenderScope => sender != "" && Fold(fold, sender) == Fold(fold, r.key)
    case DomainScope => Domain(sender) != "" && Fold(fold, Domain(sender)) == Fold(fold, r.key)
  }

  /** If both rules match a message, the sender's domain and the domain rule's key are the same but for folding. */
  lemma MatchingDomainsFoldAlike(fold: char -> char, s: Rule, d: Rule, sender: string)
    requires Folding(fold) && s.scope == SenderScope && d.scope == DomainScope
    requires MatchesRule(fold, s, sender) && MatchesRule(fold, d, sender)
    ensures Fold(fold, Domain(s.key)) == Fold(fold, d.key) != ""
  {
    FoldDomain(fold, sender);
    FoldDomain(fold, s.key);
  }

  /** Any two rules that match the same message prescribe the same action, when the keys are plain. */
  lemma MatchingRulesAgree(fold: char -> char, a: Rule, b: Rule, sender: string, reviews: seq<Review>, allowed: Allowed)
    requires Folding(fold) && IsRule(a, reviews, allowed) && IsRule(b, reviews, allowed)
    requires MatchesRule(fold, a, sender) && MatchesRule(fold, b, sender)
    requires PlainKey(a.key) && PlainKey(b.key)
    ensures a.action == b.action
    ensures a.scope == b.scope ==> a == b
  {
    PlainFolds(fold, a.key);
    PlainFolds(fold, b.key);
    if a.scope == b.scope {
      SameKeySameRule(a, b, reviews, allowed);
    } else {
      var s, d := if a.scope == SenderScope then a else b, if a.scope == SenderScope then b else a;
      MatchingDomainsFoldAlike(fold, s, d, sender);
      DomainIsPlain(s.key);
      PlainFolds(fold, Domain(s.key));
      SenderAgreesWithDomain(s, d, reviews, allowed);
    }
  }

  lemma {:induction false} DomainIsPlain(s: string)
    requires PlainKey(s)
    ensures PlainKey(Domain(s))
    decreases |s|
  {
    if s != "" && s[|s| - 1] != '@' && '@' in s {
      DomainIsPlain(s[..|s| - 1]);
    }
  }

  lemma SameKeySameRule(a: Rule, b: Rule, reviews: seq<Review>, allowed: Allowed)
    requires IsRule(a, reviews, allowed) && IsRule(b, reviews, allowed) && a.scope == b.scope && a.key == b.key
    ensures a == b
  {
    var x :| Learned(a, x, reviews, allowed);
    var y :| Learned(b, y, reviews, allowed);
    if a.scope == SenderScope {
      assert Pair(a.key, x) in multiset(SenderPairs(reviews));
    } else {
      assert Pair(a.key, x) in multiset(DomainPairs(reviews));
    }
  }

  // ----- keys that differ but fold alike -----

  function Repeat(n: nat, r: Review): seq<Review> {
    if n == 0 then [] else Repeat(n - 1, r) + [r]
  }

  lemma OneMoreCopy(n: nat, p: Pair)
    ensures multiset{}[p := n] + multiset([p]) == multiset{}[p := n + 1]
  {
  }

  lemma RepeatLast(n: nat, r: Review)
    ensures Repeat(n + 1, r) != [] && Repeat(n + 1, r)[|Repeat(n + 1, r)| - 1] == r
    ensures Repeat(n + 1, r)[..|Repeat(n + 1, r)| - 1] == Repeat(n, r)
  {
  }

  lemma LastCopy(copies: multiset<Pair>, last: seq<Pair>, n: nat, p: Pair)
    requires copies == multiset{}[p := n] && last == [p]
    ensures copies + multiset(last) == multiset{}[p := n + 1]
  {
    OneMoreCopy(n, p);
  }

  lemma {:induction false} RepeatedPairs(n: nat, r: Review, pair: Review -> seq<Pair>, p: Pair)
    requires pair(r) == [p]
    ensures multiset(PairsOf(Repeat(n, r), pair)) == multiset{}[p := n]
    decreases n
  {
    if n > 0 {
      RepeatedPairs(n - 1, r, pair, p);
      RepeatLast(n - 1, r);
      LastPair(Repeat(n, r), pair);
      LastCopy(multiset(PairsOf(Repeat(n - 1, r), pair)), pair(r), n - 1, p);
    }
  }

  lemma PairsRegrouped(x: seq<Pair>, y: seq<Pair>, z: seq<Pair>)
    ensures (x + y) + z == x + (y + z)
  {
  }

  lemma {:induction false} PairsOfBoth(a: seq<Review>, b: seq<Review>, pair: Review -> seq<Pair>)
    ensures PairsOf(a + b, pair) == PairsOf(a, pair) + PairsOf(b, pair)
    decreases |b|
  {
    if b == [] {
      assert a + b == a;
    } else {
      var init, last := b[..|b| - 1], b[|b| - 1];
      PairsOfBoth(a, init, pair);
      assert (a + b)[..|a + b| - 1] == a + init && (a + b)[|a + b| - 1] == last;
      PairsRegrouped(PairsOf(a, pair), PairsOf(init, pair), pair(last));
    }
  }

  lemma {:induction false} DomainOfAddress(user: string, host: string)
    requires '@' !in host
    ensures Domain(user + "@" + host) == host
    decreases |host|
  {
    var s := user + "@" + host;
    if host != "" {
      var n := |host| - 1;
      assert s[..|s| - 1] == user + "@" + host[..n];
      DomainOfAddress(user, host[..n]);
      assert s[|user|] == '@';
    }
  }

  ghost predicate RulesFor(s: Rule, d: Rule, senderKey: string, domainKey: string, reviews: seq<Review>,
                           allowed: Allowed) {
    && IsRule(s, reviews, allowed) && s.scope == SenderScope && s.key == senderKey
    && IsRule(d, reviews, allowed) && d.scope == DomainScope && d.key == domainKey
  }

  lemma TwoKeys(n: nat, p: Pair, m: nat, o: Pair)
    requires p.key != o.key
    ensures Unanimous(multiset{}[p := n] + multiset{}[o := m], p.key, p.action, n)
    ensures Unanimous(multiset{}[p := n] + multiset{}[o := m], o.key, o.action, m)
  {
  }

  lemma RepeatedKey(n: nat, r: Review, m: nat, q: Review, pair: Review -> seq<Pair>, p: Pair, o: Pair)
    requires pair(r) == [p] && pair(q) == [o] && p.key != o.key
    ensures Unanimous(multiset(PairsOf(Repeat(n, r) + Repeat(m, q), pair)), p.key, p.action, n)
    ensures Unanimous(multiset(PairsOf(Repeat(n, r) + Repeat(m, q), pair)), o.key, o.action, m)
  {
    PairsOfBoth(Repeat(n, r), Repeat(m, q), pair);
    RepeatedPairs(n, r, pair, p);
    RepeatedPairs(m, q, pair, o);
    TwoKeys(n, p, m, o);
  }

  /** A sender key and a domain key that is not its domain can be learned with different actions. */
  lemma KeysCanDisagree(senderKey: string, domainKey: string, allowed: Allowed)
    returns (reviews: seq<Review>, s: Rule, d: Rule)
    requires allowed.sender(senderKey) && allowed.domain(domainKey, "archive")
    requires domainKey != "" && '@' !in domainKey && Domain(senderKey) != "" && Domain(senderKey) != domainKey
    ensures RulesFor(s, d, senderKey, domainKey, reviews, allowed) && s.action == "trash" && d.action == "archive"
  {
    var other := "" + "@" + domainKey;
    DomainOfAddress("", domainKey);
    var a, b := Review(senderKey, "trash"), Review(other, "archive");
    reviews := Repeat(4, a) + Repeat(8, b);
    RepeatedKey(4, a, 8, b, SenderPair, Pair(senderKey, "trash"), Pair(other, "archive"));
    RepeatedKey(4, a, 8, b, DomainPair, Pair(Domain(senderKey), "trash"), Pair(domainKey, "archive"));
    s, d := Rule(SenderScope, senderKey, "trash", 4), Rule(DomainScope, domainKey, "archive", 8);
    assert Learned(s, "trash", reviews, allowed);
    assert Learned(d, "archive", reviews, allowed);
  }

  /**
   So for rules that match the same sender, agreement for all reviews comes down to one comparison of keys,
   which folding alone does not settle.
   */
  lemma AgreementIff(senderKey: string, domainKey: string, allowed: Allowed)
    requires allowed.sender(senderKey) && allowed.domain(domainKey, "archive")
    requires domainKey != "" && '@' !in domainKey && Domain(senderKey) != ""
    ensures Domain(senderKey) == domainKey <==>
            forall reviews, s, d :: RulesFor(s, d, senderKey, domainKey, reviews, allowed) ==> s.action == d.action
  {
    if Domain(senderKey) == domainKey {
      forall reviews, s, d | RulesFor(s, d, senderKey, domainKey, reviews, allowed)
        ensures s.action == d.action
      {
        SenderAgreesWithDomain(s, d, reviews, allowed);
      }
    } else {
      var reviews, s, d := KeysCanDisagree(senderKey, domainKey, allowed);
      assert RulesFor(s, d, senderKey, domainKey, reviews, allowed);
    }
  }

  lemma {:induction false} FoldBoth(fold: char -> char, a: string, b: string)
    ensures Fold(fold, a + b) == Fold(fold, a) + Fold(fold, b)
    decreases |b|
  {
    if b == "" {
      assert a + b == a;
    } else {
      FoldBoth(fold, a, b[..|b| - 1]);
      assert (a + b)[..|a + b| - 1] == a + b[..|b| - 1];
    }
  }

  /**
   Two characters that fold alike, as s and the long s do, give two domains and two rules that match the same
   message with different actions.
   */
  lemma FoldedDomainsDisagree(fold: char -> char, x: char, y: char, user: string, rest: string, allowed: Allowed)
    returns (reviews: seq<Review>, s: Rule, d: Rule)
    requires Folding(fold) && fold(x) == fold(y) && x != y && x != '@' && y != '@' && '@' !in rest
    requires allowed.sender(user + "@" + ([x] + rest)) && allowed.domain([y] + rest, "archive")
    ensures RulesFor(s, d, user + "@" + ([x] + rest), [y] + rest, reviews, allowed) && s.action != d.action
    ensures MatchesRule(fold, s, s.key) && MatchesRule(fold, d, s.key)
  {
    var senderKey, domainKey := user + "@" + ([x] + rest), [y] + rest;
    DomainOfAddress(user, [x] + rest);
    assert ([x] + rest)[0] != domainKey[0];
    reviews, s, d := KeysCanDisagree(senderKey, domainKey, allowed);
    FoldBoth(fold, [x], rest);
    FoldBoth(fold, [y], rest);
    FoldOne(fold, x);
    FoldOne(fold, y);
  }

  lemma FoldOne(fold: char -> char, c: char)
    ensures Fold(fold, [c]) == [fold(c)]
  {
    assert [c][..0] == "";
    assert Fold(fold, "") == "";
  }
}

/** buildDeterministicRules: nested counts over the reviews, one statistic for each key, and the sorted rules. */
module TriageRules {
  import opened Order
  import opened RuleModel
  import opened Sorting
  import opened Sums
  import opened Text

  type Counts = map<string, map<string, nat>>

  function CountIn(m: Counts, key: string, action: string): nat {
    if key in m && action in m[key] then m[key][action] else 0
  }

  /** The counts of a multiset of pairs; what was never counted has no entry. */
  ghost predicate Counted(m: Counts, ps: multiset<Pair>) {
    && (forall key, action :: CountIn(m, key, action) == ps[Pair(key, action)])
    && (forall key :: key in m ==> m[key] != map[] && forall action :: action in m[key] ==> m[key][action] > 0)
  }

  /** incrementNestedCount */
  method IncrementNested(m: Counts, key: string, action: string, ghost ps: multiset<Pair>) returns (r: Counts)
    requires Counted(m, ps)
    ensures Counted(r, ps + multiset{Pair(key, action)})
  {
    var bucket: map<string, nat> := if key in m then m[key] else map[];
    bucket := bucket[action := (if action in bucket then bucket[action] else 0) + 1];
    r := m[key := bucket];
    forall k, a
      ensures CountIn(r, k, a) == (ps + multiset{Pair(key, action)})[Pair(k, a)]
    {
      assert CountIn(m, k, a) == ps[Pair(k, a)];
    }
  }

  datatype Stat = Stat(key: string, action: string, total: nat, dominant: nat)

  /** The most frequent of these actions, the first by name among equals. */
  predicate Dominant(action: string, actions: set<string>, bucket: map<string, nat>)
    requires actions <= bucket.Keys
  {
    && action in actions
    && forall a :: a in actions ==>
         bucket[a] < bucket[action] || (bucket[a] == bucket[action] && (a == action || Less(action, a)))
  }

  ghost predicate IsStat(s: Stat, source: Counts) {
    && s.key in source
    && Dominant(s.action, source[s.key].Keys, source[s.key])
    && s.dominant == source[s.key][s.action] && s.total == Sum(source[s.key].Keys, source[s.key])
  }

  predicate Qualifies(s: Stat, minSupport: nat, minPurity: real)
    requires s.total > 0
  {
    s.total >= minSupport && s.dominant as real / s.total as real >= minPurity
  }

  predicate StatPrecedes(a: Stat, b: Stat) {
    if a.dominant != b.dominant then a.dominant > b.dominant
    else if a.total != b.total then a.total > b.total
    else Less(a.key, b.key)
  }

  lemma StatPrecedesIsTransitive()
    ensures Transitive(StatPrecedes)
  {
    forall a, b, c | StatPrecedes(a, b) && StatPrecedes(b, c)
      ensures StatPrecedes(a, c)
    {
      if Less(a.key, b.key) && Less(b.key, c.key) {
        LessTransitive(a.key, b.key, c.key);
      }
    }
  }

  /** The inner loop of collectDominantRules: a map is walked in any order, with the same result. */
  method Tally(key: string, bucket: map<string, nat>) returns (s: Stat)
    requires bucket != map[] && forall a :: a in bucket ==> bucket[a] > 0
    ensures s.key == key && s.total == Sum(bucket.Keys, bucket) > 0
    ensures Dominant(s.action, bucket.Keys, bucket) && s.dominant == bucket[s.action]
  {
    var total, dominant, name := 0, 0, "";
    var todo := bucket.Keys;
    ghost var done: set<string> := {};
    while todo != {}
      invariant done !! todo && done + todo == bucket.Keys && total + Sum(todo, bucket) == Sum(bucket.Keys, bucket)
      invariant if done == {} then dominant == 0 && total == 0
                else Dominant(name, done, bucket) && dominant == bucket[name] && total > 0
      decreases |todo|
    {
      var action :| action in todo;
      SumWithout(todo, bucket, action);
      DominantGrows(action, name, done, bucket);
      var count := bucket[action];
      total := total + count;
      if count > dominant || (count == dominant && Less(action, name)) {
        name := action;
        dominant := count;
      }
      MoveOne(done, todo, action);
      todo, done := todo - {action}, done + {action};
    }
    assert done == bucket.Keys;
    s := Stat(key, name, total, dominant);
  }

  lemma MoveOne(done: set<string>, todo: set<string>, action: string)
    requires done !! todo && action in todo
    ensures (done + {action}) !! (todo - {action}) && (done + {action}) + (todo - {action}) == done + todo
  {
  }

  lemma DominantGrows(action: string, name: string, done: set<string>, bucket: map<string, nat>)
    requires done <= bucket.Keys && action in bucket && action !in done
    requires done != {} ==> Dominant(name, done, bucket)
    ensures if done == {} || bucket[action] > bucket[name] || (bucket[action] == bucket[name] && Less(action, name))
            then Dominant(action, done + {action}, bucket) else Dominant(name, done + {action}, bucket)
  {
    LessTotal(action, name);
    if done != {} {
      forall a | a in done && Less(action, name) && Less(name, a)
        ensures Less(action, a)
      {
        LessTransitive(action, name, a);
      }
    }
  }

  /** Exactly the statistics that qualify, the best supported first. */
  ghost predicate StatsOf(stats: seq<Stat>, source: Counts, keys: set<string>, minSupport: nat, minPurity: real) {
    && Sorted(stats, StatPrecedes)
    && (forall s :: s in stats ==> s.total > 0)
    && (forall s :: s in stats <==> s.key in keys && IsStat(s, source) && s.total > 0 && Qualifies(s, minSupport, minPurity))
  }

  /** collectDominantRules */
  method CollectDominant(source: Counts, minSupport: nat, minPurity: real, ghost ps: multiset<Pair>)
    returns (stats: seq<Stat>)
    requires Counted(source, ps)
    ensures StatsOf(stats, source, source.Keys, minSupport, minPurity)
  {
    stats := [];
    var todo := source.Keys;
    StatPrecedesIsTransitive();
    while todo != {}
      invariant todo <= source.Keys && StatsOf(stats, source, source.Keys - todo, minSupport, minPurity)
      decreases |todo|
    {
      var key :| key in todo;
      todo := todo - {key};
      var s := Tally(key, source[key]);
      OneStat(s, source);
      if Qualifies(s, minSupport, minPurity) {
        forall t | t in stats
          ensures StatPrecedes(s, t) || StatPrecedes(t, s)
        {
          LessTotal(s.key, t.key);
        }
        stats := Insert(stats, s, StatPrecedes);
      }
    }
    assert source.Keys - {} == source.Keys;
  }

  /** A key has one statistic. */
  lemma OneStat(s: Stat, source: Counts)
    requires IsStat(s, source)
    ensures forall t :: IsStat(t, source) && t.key == s.key ==> t == s
  {
    forall t | IsStat(t, source) && t.key == s.key
      ensures t == s
    {
      LessTotal(s.action, t.action);
    }
  }

  // ----- a purity of 1 -----

  lemma SumOfOne(bucket: map<string, nat>, a: string)
    requires bucket.Keys == {a}
    ensures Sum({a}, bucket) == bucket[a]
  {
    SumWithout({a}, bucket, a);
    assert {a} - {a} == {};
  }

  lemma PureIsAlone(bucket: map<string, nat>, a: string)
    requires a in bucket && forall b :: b in bucket ==> bucket[b] > 0
    ensures Sum(bucket.Keys, bucket) >= bucket[a]
    ensures Sum(bucket.Keys, bucket) == bucket[a] <==> bucket.Keys == {a}
  {
    SumWithout(bucket.Keys, bucket, a);
    if bucket.Keys == {a} {
      SumOfOne(bucket, a);
    } else {
      var rest := bucket.Keys - {a};
      assert bucket.Keys == rest + {a};
      var b :| b in rest;
      SumWithout(rest, bucket, b);
    }
  }

  lemma PureRatio(dominant: nat, total: nat)
    requires 0 < total && dominant <= total
    ensures dominant as real / total as real >= 1.0 <==> dominant == total
  {
    var q := dominant as real / total as real;
    assert q * total as real == dominant as real;
    if q >= 1.0 {
      assert q * total as real >= total as real;
    }
  }

  /** A key's only action in the counts is the only one of the reviews. */
  lemma AloneIsUnanimous(source: Counts, ps: multiset<Pair>, key: string, action: string)
    requires Counted(source, ps) && key in source && action in source[key]
    ensures source[key].Keys == {action} <==> Unanimous(ps, key, action, source[key][action])
  {
    assert CountIn(source, key, action) == ps[Pair(key, action)];
    forall other | other != action
      ensures other in source[key] <==> Pair(key, other) in ps
    {
      assert CountIn(source, key, other) == ps[Pair(key, other)];
    }
    if source[key].Keys != {action} {
      assert source[key].Keys == (source[key].Keys - {action}) + {action};
      var other :| other in source[key].Keys - {action};
      assert Pair(key, other) in ps;
    }
  }

  /** With purity 1 the statistics are the unanimous keys. */
  lemma PureStats(stats: seq<Stat>, source: Counts, ps: multiset<Pair>, min: nat, s: Stat)
    requires Counted(source, ps) && StatsOf(stats, source, source.Keys, min, 1.0) && min > 0
    ensures s in stats <==> s.total == s.dominant >= min && Unanimous(ps, s.key, s.action, s.total)
  {
    if s.key in source && s.action in source[s.key] {
      var bucket := source[s.key];
      PureIsAlone(bucket, s.action);
      AloneIsUnanimous(source, ps, s.key, s.action);
      if s.total > 0 && IsStat(s, source) {
        PureRatio(s.dominant, s.total);
      }
    } else {
      assert CountIn(source, s.key, s.action) == ps[Pair(s.key, s.action)];
    }
  }

  // ----- building the rules -----

  datatype RawReview = RawReview(sender: string, action: string)

  /** Cleaning of reviewed actions and senders, and the keys for which rules are allowed. */
  datatype Helpers = Helpers(action: string -> string, sender: string -> string, allowed: Allowed)

  function Clean(raw: seq<RawReview>, h: Helpers): seq<Review> {
    if raw == [] then [] else
      var last := raw[|raw| - 1];
      Clean(raw[..|raw| - 1], h)
      + (if h.action(last.action) == "" then [] else [Review(h.sender(last.sender), h.action(last.action))])
  }

  /** How many of these reviews have an action. */
  function WithAction(raw: seq<RawReview>, h: Helpers): nat {
    if raw == [] then 0
    else WithAction(raw[..|raw| - 1], h) + if h.action(raw[|raw| - 1].action) == "" then 0 else 1
  }

  /** The reviews with an action, each cleaned, in their order: the k-th of them is at place k. */
  lemma {:induction false} CleanKeeps(raw: seq<RawReview>, h: Helpers, i: nat)
    requires i < |raw| && h.action(raw[i].action) != ""
    ensures |Clean(raw, h)| == WithAction(raw, h)
    ensures var k := WithAction(raw[..i], h);
            k < |Clean(raw, h)| && Clean(raw, h)[k] == Review(h.sender(raw[i].sender), h.action(raw[i].action))
    decreases |raw|
  {
    var n := |raw| - 1;
    CleanLength(raw, h);
    CleanLength(raw[..n], h);
    if i < n {
      CleanKeeps(raw[..n], h, i);
      assert raw[..n][..i] == raw[..i];
    }
  }

  lemma {:induction false} CleanLength(raw: seq<RawReview>, h: Helpers)
    ensures |Clean(raw, h)| == WithAction(raw, h)
    decreases |raw|
  {
    if raw != [] {
      CleanLength(raw[..|raw| - 1], h);
    }
  }

  /** normalizeReviewedExamples */
  method NormalizeReviews(raw: seq<RawReview>, h: Helpers) returns (clean: seq<Review>)
    ensures clean == Clean(raw, h)
  {
    clean := [];
    for i := 0 to |raw|
      invariant clean == Clean(raw[..i], h)
    {
      assert raw[..i + 1][..i] == raw[..i];
      var action := h.action(raw[i].action);
      if action == "" {
        continue;
      }
      clean := clean + [Review(h.sender(raw[i].sender), action)];
    }
    assert raw[..|raw|] == raw;
  }

  method CountReview(review: Review, before: (Counts, Counts), ghost sp: multiset<Pair>, ghost dp: multiset<Pair>)
    returns (senders: Counts, domains: Counts)
    requires Counted(before.0, sp) && Counted(before.1, dp)
    ensures Counted(senders, sp + multiset(SenderPair(review)))
    ensures Counted(domains, dp + multiset(DomainPair(review)))
  {
    senders, domains := before.0, before.1;
    if review.sender != "" {
      senders := IncrementNested(senders, review.sender, review.action, sp);
      var domain := Domain(review.sender);
      if domain != "" {
        domains := IncrementNested(domains, domain, review.action, dp);
      }
    }
  }

  /** The two nested counts. */
  method CountReviews(reviews: seq<Review>) returns (senders: Counts, domains: Counts)
    ensures Counted(senders, multiset(SenderPairs(reviews))) && Counted(domains, multiset(DomainPairs(reviews)))
  {
    senders, domains := map[], map[];
    ghost var sp: multiset<Pair>, dp: multiset<Pair> := multiset{}, multiset{};
    for i := 0 to |reviews|
      invariant sp == multiset(SenderPairs(reviews[..i])) && dp == multiset(DomainPairs(reviews[..i]))
      invariant Counted(senders, sp) && Counted(domains, dp)
    {
      assert reviews[..i + 1][..i] == reviews[..i];
      LastPair(reviews[..i + 1], SenderPair);
      LastPair(reviews[..i + 1], DomainPair);
      senders, domains := CountReview(reviews[i], (senders, domains), sp, dp);
      sp, dp := sp + multiset(SenderPair(reviews[i])), dp + multiset(DomainPair(reviews[i]));
    }
    assert reviews[..|reviews|] == reviews;
  }

  predicate Distinct(rules: seq<Rule>) {
    forall i, j :: 0 <= i < j < |rules| ==> rules[i] != rules[j]
  }

  lemma StatKeysDiffer(stats: seq<Stat>, source: Counts, min: nat)
    requires StatsOf(stats, source, source.Keys, min, 1.0)
    ensures forall i, j :: 0 <= i < j < |stats| ==> stats[i].key != stats[j].key
  {
    forall i, j | 0 <= i < j < |stats|
      ensures stats[i].key != stats[j].key
    {
      assert stats[i] in stats && stats[j] in stats && StatPrecedes(stats[i], stats[j]);
      OneStat(stats[i], source);
      LessTotal(stats[i].key, stats[i].key);
    }
  }

  /** One scope's rules, of the statistics whose key is allowed. */
  method RulesFrom(scope: Scope, stats: seq<Stat>, allowed: Allowed) returns (rules: seq<Rule>)
    requires forall i, j :: 0 <= i < j < |stats| ==> stats[i].key != stats[j].key
    ensures Distinct(rules) && forall r :: r in rules <==> FromStat(r, scope, stats, allowed)
  {
    rules := [];
    for i := 0 to |stats|
      invariant Distinct(rules) && forall r :: r in rules <==> FromStat(r, scope, stats[..i], allowed)
    {
      var stat := stats[i];
      assert forall s :: s in stats[..i] ==> s.key != stat.key;
      forall r | r in rules
        ensures r.key != stat.key
      {
        assert FromStat(r, scope, stats[..i], allowed);
      }
      assert stats[..i + 1] == stats[..i] + [stat];
      if AllowedKey(scope, stat, allowed) {
        rules := rules + [RuleFor(scope, stat)];
      }
    }
    assert stats[..|stats|] == stats;
  }

  predicate AllowedKey(scope: Scope, stat: Stat, allowed: Allowed) {
    if scope == SenderScope then allowed.sender(stat.key) else allowed.domain(stat.key, stat.action)
  }

  function RuleFor(scope: Scope, stat: Stat): Rule {
    Rule(scope, stat.key, ToAction(stat.action), stat.total)
  }

  ghost predicate FromStat(r: Rule, scope: Scope, stats: seq<Stat>, allowed: Allowed) {
    exists s :: s in stats && AllowedKey(scope, s, allowed) && r == RuleFor(scope, s)
  }

  function MinSupport(scope: Scope): nat {
    if scope == SenderScope then SENDER_SUPPORT else DOMAIN_SUPPORT
  }

  function PairsIn(scope: Scope, reviews: seq<Review>): multiset<Pair> {
    if scope == SenderScope then multiset(SenderPairs(reviews)) else multiset(DomainPairs(reviews))
  }

  lemma StatRulesAreRules(r: Rule, scope: Scope, stats: seq<Stat>, source: Counts, reviews: seq<Review>, allowed: Allowed)
    requires Counted(source, PairsIn(scope, reviews))
    requires StatsOf(stats, source, source.Keys, MinSupport(scope), 1.0)
    ensures FromStat(r, scope, stats, allowed) <==> r.scope == scope && IsRule(r, reviews, allowed)
  {
    var ps := PairsIn(scope, reviews);
    if FromStat(r, scope, stats, allowed) {
      var s :| s in stats && AllowedKey(scope, s, allowed) && r == RuleFor(scope, s);
      PureStats(stats, source, ps, MinSupport(scope), s);
      assert Learned(r, s.action, reviews, allowed);
    }
    if r.scope == scope && IsRule(r, reviews, allowed) {
      var action :| Learned(r, action, reviews, allowed);
      var s := Stat(r.key, action, r.support, r.support);
      PureStats(stats, source, ps, MinSupport(scope), s);
      assert s in stats && AllowedKey(scope, s, allowed) && r == RuleFor(scope, s);
    }
  }

  method SortRules(rules: seq<Rule>, ghost reviews: seq<Review>, ghost allowed: Allowed) returns (sorted: seq<Rule>)
    requires Distinct(rules) && forall r :: r in rules ==> IsRule(r, reviews, allowed)
    ensures Sorted(sorted, Precedes) && forall r :: r in sorted <==> r in rules
  {
    sorted := [];
    PrecedesIsTransitive();
    for i := 0 to |rules|
      invariant Sorted(sorted, Precedes) && forall r :: r in sorted <==> r in rules[..i]
    {
      var rule := rules[i];
      assert rules[..i + 1] == rules[..i] + [rule];
      forall r | r in sorted
        ensures Precedes(rule, r) || Precedes(r, rule)
      {
        assert r in rules && rule in rules && r != rule;
        PrecedesOnce(rule, r);
        PrecedesOnce(r, rule);
        if r.scope == rule.scope && r.key == rule.key {
          SameKeySameRule(r, rule, reviews, allowed);
        }
      }
      sorted := Insert(sorted, rule, Precedes);
    }
    assert rules[..|rules|] == rules;
  }

  /** buildDeterministicRules */
  method BuildRules(raw: seq<RawReview>, h: Helpers) returns (rules: seq<Rule>)
    ensures RulesOf(rules, Clean(raw, h), h.allowed)
  {
    var reviews := NormalizeReviews(raw, h);
    var senders, domains := CountReviews(reviews);
    var senderStats := CollectDominant(senders, SENDER_SUPPORT, 1.0, PairsIn(SenderScope, reviews));
    var domainStats := CollectDominant(domains, DOMAIN_SUPPORT, 1.0, PairsIn(DomainScope, reviews));
    StatKeysDiffer(senderStats, senders, SENDER_SUPPORT);
    StatKeysDiffer(domainStats, domains, DOMAIN_SUPPORT);
    var senderRules := RulesFrom(SenderScope, senderStats, h.allowed);
    var domainRules := RulesFrom(DomainScope, domainStats, h.allowed);
    forall r
      ensures r in senderRules <==> r.scope == SenderScope && IsRule(r, reviews, h.allowed)
      ensures r in domainRules <==> r.scope == DomainScope && IsRule(r, reviews, h.allowed)
    {
      StatRulesAreRules(r, SenderScope, senderStats, senders, reviews, h.allowed);
      StatRulesAreRules(r, DomainScope, domainStats, domains, reviews, h.allowed);
    }
    rules := SortRules(senderRules + domainRules, reviews, h.allowed);
  }

  /** matchDeterministicRule: the first rule that matches. */
  method MatchRule(rules: seq<Rule>, sender: string, fold: char -> char) returns (found: Option<Rule>)
    ensures found.None? ==> forall i :: 0 <= i < |rules| ==> !MatchesRule(fold, rules[i], sender)
    ensures found.Some? ==> exists i :: FirstMatch(i, rules, sender, fold) && rules[i] == found.value
  {
    for i := 0 to |rules|
      invariant forall j :: 0 <= j < i ==> !MatchesRule(fold, rules[j], sender)
    {
      if MatchesRule(fold, rules[i], sender) {
        assert FirstMatch(i, rules, sender, fold);
        return Some(rules[i]);
      }
    }
    found := None;
  }

  predicate FirstMatch(i: int, rules: seq<Rule>, sender: string, fold: char -> char) {
    && 0 <= i < |rules| && MatchesRule(fold, rules[i], sender)
    && forall j :: 0 <= j < i ==> !MatchesRule(fold, rules[j], sender)
  }

  /** In a sorted list a sender rule comes first only if no domain rule matches. */
  lemma SenderRuleMeansNoDomainRule(i: int, j: int, rules: seq<Rule>, sender: string, fold: char -> char)
    requires Sorted(rules, Precedes) && FirstMatch(i, rules, sender, fold) && rules[i].scope == SenderScope
    requires 0 <= j < |rules| && rules[j].scope == DomainScope
    ensures !MatchesRule(fold, rules[j], sender)
  {
    assert j > i ==> Precedes(rules[i], rules[j]);
  }

  /**
   For plain keys the order of the rules never matters: the first match prescribes what every match prescribes.
   */
  lemma AnyMatchWillDo(raw: seq<RawReview>, h: Helpers, rules: seq<Rule>, a: Rule, b: Rule, sender: string,
                       fold: char -> char)
    requires Folding(fold) && RulesOf(rules, Clean(raw, h), h.allowed) && a in rules && b in rules
    requires MatchesRule(fold, a, sender) && MatchesRule(fold, b, sender) && PlainKey(a.key) && PlainKey(b.key)
    ensures a.action == b.action
  {
    MatchingRulesAgree(fold, a, b, sender, Clean(raw, h), h.allowed);
  }
}

/** The keys for which the program allows rules, and a sender and a domain among them that fold alike. */
module RuleKeys {
  import opened RuleModel
  import opened Text

  const PROTECTED_TOPICS := [
    "acoustic", "acoustics", "bayesian", "fortran", "fusion", "gcc", "gfortran", "itpcp", "machine learning", "ml",
    "physics", "plasma", "scientific computing", "tu graz"]

  const SENDER_SNIPPETS := [
    "noreply", "no-reply", "notification", "news@", "newsletter", "mail@", "alerts@", "bot@", "online.tugraz.at",
    "qodo.ai", "academia-mail.com", "iter.org"]

  const DOMAIN_SNIPPETS := ["academia-mail.com", "qodo.ai", "iter.org"]

  predicate HasOneOf(text: string, snippets: seq<string>) {
    exists i :: 0 <= i < |snippets| && Contains(text, snippets[i])
  }

  predicate EndsWith(text: string, end: string) {
    |text| >= |end| && text[|text| - |end|..] == end
  }

  /** The text in which a sender key is searched for protected topics: as subject and as snippet, without a body. */
  function TopicText(sender: string): string {
    Lower(sender + "\n" + sender + "\n")
  }

  /** senderRuleAllowed; the texts are sequences of characters here, one `char` per code point. */
  predicate SenderRuleAllowed(sender: string) {
    sender != "" && !HasOneOf(TopicText(sender), PROTECTED_TOPICS) && HasOneOf(sender, SENDER_SNIPPETS)
  }

  /** domainRuleAllowed */
  predicate DomainRuleAllowed(domain: string, action: string) {
    domain != "" && !(EndsWith(domain, "tugraz.at") && action == "trash") && HasOneOf(domain, DOMAIN_SNIPPETS)
  }

  const PROGRAM_KEYS := Allowed(SenderRuleAllowed, DomainRuleAllowed)

  const LONG_S: char := '\U{17f}'

  /** Case folding on lower-case text, as far as the long s goes. */
  function FoldLongS(c: char): char {
    if c == LONG_S then 's' else c
  }

  const REST := ".qodo.ai"
  const SENDER_KEY := "noreply" + "@" + ([LONG_S] + REST)
  const KEY_CHARS: set<char> := {'n', 'o', 'r', 'e', 'p', 'l', 'y', '@', LONG_S, '.', 'q', 'd', 'a', 'i', '\n'}

  lemma HasItsChars(text: string, part: string, i: nat)
    requires Contains(text, part) && i < |part|
    ensures part[i] in text
  {
    var k :| 0 <= k <= |text| && OccursAt(text, part, k);
    assert text[k..k + |part|][i] == text[k + i];
  }

  predicate OnlyKeyChars(text: string) {
    forall c :: c in text ==> c in KEY_CHARS
  }

  lemma KeyPartsHaveKeyChars()
    ensures OnlyKeyChars("noreply") && OnlyKeyChars("@" + ([LONG_S] + REST))
  {
  }

  lemma KeyCharsAdd(a: string, b: string)
    requires OnlyKeyChars(a) && OnlyKeyChars(b)
    ensures OnlyKeyChars(a + b)
  {
  }

  lemma KeyCharsAreLower(text: string)
    requires OnlyKeyChars(text)
    ensures Lower(text) == text
  {
    assert forall i :: 0 <= i < |text| ==> text[i] in text;
  }

  lemma KeyHasKeyChars()
    ensures OnlyKeyChars(TopicText(SENDER_KEY))
  {
    var line := SENDER_KEY + "\n";
    KeyPartsHaveKeyChars();
    KeyCharsAdd("noreply", "@" + ([LONG_S] + REST));
    assert SENDER_KEY == "noreply" + ("@" + ([LONG_S] + REST));
    KeyCharsAdd(SENDER_KEY, "\n");
    KeyCharsAdd(line, line);
    assert SENDER_KEY + "\n" + SENDER_KEY + "\n" == line + line;
    KeyCharsAreLower(line + line);
  }

  /** A place in each topic with a character that the key does not have. */
  const STRANGERS := [1, 1, 0, 0, 0, 0, 0, 1, 0, 0, 1, 3, 0, 0]

  lemma TopicsAreStrange(t: nat)
    requires t < |PROTECTED_TOPICS|
    ensures STRANGERS[t] < |PROTECTED_TOPICS[t]| && PROTECTED_TOPICS[t][STRANGERS[t]] !in KEY_CHARS
  {
  }

  lemma SenderKeyIsAllowed()
    ensures SenderRuleAllowed(SENDER_KEY)
  {
    assert SENDER_KEY[0..0 + |"noreply"|] == "noreply";
    assert OccursAt(SENDER_KEY, "noreply", 0) && SENDER_SNIPPETS[0] == "noreply";
    KeyHasKeyChars();
    forall t | 0 <= t < |PROTECTED_TOPICS|
      ensures !Contains(TopicText(SENDER_KEY), PROTECTED_TOPICS[t])
    {
      TopicsAreStrange(t);
      if Contains(TopicText(SENDER_KEY), PROTECTED_TOPICS[t]) {
        HasItsChars(TopicText(SENDER_KEY), PROTECTED_TOPICS[t], STRANGERS[t]);
      }
    }
  }

  lemma DomainKeyIsAllowed()
    ensures DomainRuleAllowed(['s'] + REST, "archive")
  {
    var key := ['s'] + REST;
    var part := DOMAIN_SNIPPETS[1];
    assert REST == "." + part;
    assert key[2..2 + |part|] == REST[1..] == part;
    assert OccursAt(key, part, 2);
  }

  /**
   So the program can learn, and then match on the same message, a rule that trashes mail from one sender and a rule
   that archives mail from what looks like the same domain.
   */
  lemma ProgramRulesDisagree() returns (reviews: seq<Review>, s: Rule, d: Rule)
    ensures Folding(FoldLongS)
    ensures RulesFor(s, d, "noreply@\U{17f}.qodo.ai", "s.qodo.ai", reviews, PROGRAM_KEYS) && s.action != d.action
    ensures MatchesRule(FoldLongS, s, s.key) && MatchesRule(FoldLongS, d, s.key)
  {
    SenderKeyIsAllowed();
    DomainKeyIsAllowed();
    assert SENDER_KEY == "noreply@\U{17f}.qodo.ai" && ['s'] + REST == "s.qodo.ai";
    reviews, s, d := FoldedDomainsDisagree(FoldLongS, LONG_S, 's', "noreply", REST, PROGRAM_KEYS);
  }

  lemma ContainsInside(before: string, text: string, after: string, part: string)
    requires Contains(text, part)
    ensures Contains(before + text + after, part)
  {
    var k :| 0 <= k <= |text| && OccursAt(text, part, k);
    var whole := before + text + after;
    assert whole[|before| + k..|before| + k + |part|] == text[k..k + |part|];
    assert OccursAt(whole, part, |before| + k);
  }

  lemma TopicInKey(key: string, topic: string)
    requires Contains(Lower(key), topic)
    ensures Contains(TopicText(key), topic)
  {
    ContainsInside("", Lower(key), "\n" + Lower(key) + "\n", topic);
    assert TopicText(key) == "" + Lower(key) + ("\n" + Lower(key) + "\n");
  }

  /**
   What the program learns rules about: senders that look like machines and name no protected topic, and three domains.
   No rule trashes mail from the university.
   */
  lemma LearnedKeys(r: Rule, reviews: seq<Review>)
    requires IsRule(r, reviews, PROGRAM_KEYS)
    ensures r.scope == SenderScope ==>
              && (exists k :: 0 <= k < |SENDER_SNIPPETS| && Contains(r.key, SENDER_SNIPPETS[k]))
              && (forall t :: 0 <= t < |PROTECTED_TOPICS| ==> !Contains(Lower(r.key), PROTECTED_TOPICS[t]))
    ensures r.scope == DomainScope ==>
              && (Contains(r.key, "academia-mail.com") || Contains(r.key, "qodo.ai") || Contains(r.key, "iter.org"))
              && forall x :: r.key == x + "tugraz.at" ==> r.action != "trash"
  {
    var action :| Learned(r, action, reviews, PROGRAM_KEYS);
    if r.scope == SenderScope {
      forall t | 0 <= t < |PROTECTED_TOPICS|
        ensures !Contains(Lower(r.key), PROTECTED_TOPICS[t])
      {
        if Contains(Lower(r.key), PROTECTED_TOPICS[t]) {
          TopicInKey(r.key, PROTECTED_TOPICS[t]);
          assert HasOneOf(TopicText(r.key), PROTECTED_TOPICS);
        }
      }
    } else {
      forall x | r.key == x + "tugraz.at"
        ensures r.action != "trash"
      {
        assert r.key[|x|..] == "tugraz.at";
        assert EndsWith(r.key, "tugraz.at");
      }
    }
  }
}
