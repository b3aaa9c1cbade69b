/** Sequences with one element taken out, and what holds of some element. */
module Sequences {
  /** What f gives for each element, one after the other. */
  function Gather<A, B>(xs: seq<A>, f: A -> seq<B>): seq<B> {
    if xs == [] then [] else Gather(xs[..|xs| - 1], f) + f(xs[|xs| - 1])
  }

  lemma GatherOneMore<A, B>(xs: seq<A>, x: A, f: A -> seq<B>)
    ensures Gather(xs + [x], f) == Gather(xs, f) + f(x)
  {
    assert (xs + [x])[..|xs|] == xs;
  }

  lemma GatherUpToOne<A, B>(xs: seq<A>, ys: seq<A>, f: A -> seq<B>)
    requires |ys| <= 1
    ensures Gather(xs + ys, f) == Gather(xs, f) + if ys == [] then [] else f(ys[0])
  {
    if ys == [] {
      assert xs + ys == xs;
    } else {
      assert ys == [ys[0]];
      GatherOneMore(xs, ys[0], f);
    }
  }

  lemma Nothing<B>(bs: seq<B>)
    ensures bs + [] == bs
  {
  }

  lemma GatherSilent<A, B>(xs: seq<A>, zs: seq<A>, f: A -> seq<B>)
    requires |zs| <= 1 && (zs != [] ==> f(zs[0]) == [])
    ensures Gather(xs + zs, f) == Gather(xs, f)
  {
    GatherUpToOne(xs, zs, f);
    Nothing(Gather(xs, f));
  }

  lemma Regroup<A>(xs: seq<A>, ys: seq<A>, zs: seq<A>)
    ensures (xs + ys) + zs == xs + (ys + zs)
  {
  }

  lemma GatherThenSilent<A, B>(xs: seq<A>, ys: seq<A>, zs: seq<A>, f: A -> seq<B>)
    requires |ys| <= 1 && |zs| <= 1 && (zs != [] ==> f(zs[0]) == [])
    ensures Gather(xs + (ys + zs), f) == Gather(xs, f) + if ys == [] then [] else f(ys[0])
  {
    Regroup(xs, ys, zs);
    GatherSilent(xs + ys, zs, f);
    GatherUpToOne(xs, ys, f);
  }

  function Except<T>(xs: seq<T>, k: nat): seq<T>
    requires k < |xs|
  {
    xs[..k] + xs[k + 1..]
  }

  ghost predicate Any<T>(xs: seq<T>, p: T -> bool) {
    exists i :: 0 <= i < |xs| && p(xs[i])
  }

  lemma AnyLast<T>(xs: seq<T>, p: T -> bool)
    requires xs != []
    ensures Any(xs, p) <==> Any(xs[..|xs| - 1], p) || p(xs[|xs| - 1])
  {
    var init := xs[..|xs| - 1];
    assert forall i :: 0 <= i < |init| ==> init[i] == xs[i];
  }

  lemma AnyFirst<T>(xs: seq<T>, p: T -> bool)
    requires xs != []
    ensures Any(xs, p) <==> p(xs[0]) || Any(xs[1..], p)
  {
    var rest := xs[1..];
    assert forall i :: 0 < i < |xs| ==> xs[i] == rest[i - 1];
    assert forall i :: 0 <= i < |rest| ==> rest[i] == xs[i + 1];
  }

  lemma ExceptEnds<T>(xs: seq<T>, k: nat)
    requires k < |xs| - 1
    ensures var n, rest := |xs| - 1, Except(xs, k);
            rest != [] && rest[|rest| - 1] == xs[n] && rest[..|rest| - 1] == Except(xs[..n], k)
  {
  }

  lemma ExceptLast<T>(xs: seq<T>)
    requires xs != []
    ensures Except(xs, |xs| - 1) == xs[..|xs| - 1]
  {
  }

  lemma Without<T>(xs: seq<T>, k: nat)
    requires k < |xs|
    ensures multiset(Except(xs, k)) == multiset(xs) - multiset{xs[k]}
    ensures xs[k] in multiset(xs)
  {
    assert xs == xs[..k] + ([xs[k]] + xs[k + 1..]);
    assert multiset(xs) == multiset(xs[..k]) + (multiset{xs[k]} + multiset(xs[k + 1..]));
  }

  /** The last element of one sequence has a place in a rearrangement of it. */
  lemma FindLast<T>(a: seq<T>, b: seq<T>) returns (k: nat)
    requires a != [] && multiset(a) == multiset(b)
    ensures k < |b| && b[k] == a[|a| - 1]
    ensures multiset(a[..|a| - 1]) == multiset(Except(b, k))
  {
    var n := |a| - 1;
    Without(a, n);
    ExceptLast(a);
    assert a[n] in b;
    k :| 0 <= k < |b| && b[k] == a[n];
    Without(b, k);
  }
}

/** Runs of a machine: sequences of actions, each of which relates one state to the next. */
module Machine {
  ghost predicate Run<S(!new), A>(init: S, next: (S, A, S) -> bool, actions: seq<A>, s: S) {
    if actions == [] then s == init
    else
      var n := |actions| - 1;
      exists before :: Run(init, next, actions[..n], before) && next(before, actions[n], s)
  }

  lemma RunGrows<S(!new), A>(init: S, next: (S, A, S) -> bool, actions: seq<A>, s: S, a: A, t: S)
    requires Run(init, next, actions, s) && next(s, a, t)
    ensures Run(init, next, actions + [a], t)
  {
    assert (actions + [a])[..|actions|] == actions;
  }

  ghost predicate Keeps<S(!new), A(!new)>(next: (S, A, S) -> bool, inv: S -> bool) {
    forall s, a, t :: inv(s) && next(s, a, t) ==> inv(t)
  }

  /** What the first state has and every step keeps, every run keeps. */
  lemma {:induction false} RunKeeps<S(!new), A(!new)>(init: S, next: (S, A, S) -> bool, inv: S -> bool,
                                                      actions: seq<A>, s: S)
    requires Run(init, next, actions, s) && inv(init) && Keeps(next, inv)
    ensures inv(s)
    decreases |actions|
  {
    if actions != [] {
      var n := |actions| - 1;
      var before :| Run(init, next, actions[..n], before) && next(before, actions[n], s);
      RunKeeps(init, next, inv, actions[..n], before);
    }
  }

  /** One action has happened and another one has not happened since. */
  ghost predicate Since<A>(actions: seq<A>, from: A, until: A) {
    exists i :: 0 <= i < |actions| && actions[i] == from && until !in actions[i + 1..]
  }

  lemma SinceOneMore<A>(actions: seq<A>, a: A, from: A, until: A)
    requires from != until
    ensures Since(actions + [a], from, until) <==> a == from || (a != until && Since(actions, from, until))
  {
    var all := actions + [a];
    forall i | 0 <= i < |actions|
      ensures all[i + 1..] == actions[i + 1..] + [a] && all[i] == actions[i]
    {
    }
    if a == from {
      assert all[|actions|] == from && all[|actions| + 1..] == [];
    }
    if a != until && Since(actions, from, until) {
      var i :| 0 <= i < |actions| && actions[i] == from && until !in actions[i + 1..];
      assert all[i] == from && until !in all[i + 1..];
    }
    if Since(all, from, until) && a != from {
      var i :| 0 <= i < |all| && all[i] == from && until !in all[i + 1..];
      assert actions[i] == from && a in all[i + 1..];
    }
  }

  /** How often an action has happened. */
  function Times<A(==)>(actions: seq<A>, a: A): nat {
    multiset(actions)[a]
  }

  lemma TimesOneMore<A>(actions: seq<A>, last: A, a: A)
    ensures Times(actions + [last], a) == Times(actions, a) + if last == a then 1 else 0
  {
  }

  lemma LastAction<S(!new), A>(init: S, next: (S, A, S) -> bool, actions: seq<A>, s: S) returns (before: S)
    requires actions != [] && Run(init, next, actions, s)
    ensures var n := |actions| - 1;
            Run(init, next, actions[..n], before) && next(before, actions[n], s) && actions == actions[..n] + [actions[n]]
  {
    var n := |actions| - 1;
    before :| Run(init, next, actions[..n], before) && next(before, actions[n], s);
  }
}

/** Sums of the numbers that a map has for some keys. */
module Sums {
  function Get(m: map<string, nat>, k: string): nat {
    if k in m then m[k] else 0
  }

  ghost function Sum(ks: set<string>, m: map<string, nat>): nat {
    if ks == {} then 0 else
      var k :| k in ks;
      Get(m, k) + Sum(ks - {k}, m)
  }

  lemma {:induction false} SumWithout(ks: set<string>, m: map<string, nat>, k: string)
    requires k in ks
    ensures Sum(ks, m) == Get(m, k) + Sum(ks - {k}, m)
    decreases |ks|
  {
    var l :| l in ks && Sum(ks, m) == Get(m, l) + Sum(ks - {l}, m);
    if l != k {
      SumWithout(ks - {l}, m, k);
      SumWithout(ks - {k}, m, l);
      assert ks - {l} - {k} == ks - {k} - {l};
    }
  }
}

module Reals {
  lemma Positive(a: real, b: real)
    requires a > 0.0 && b > 0.0
    ensures a * b > 0.0
  {
  }
}
