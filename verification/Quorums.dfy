/** Counting arguments shared by every protocol: a fixed group of `n` nodes, at most `f` of them
    faulty, with `n >= 3f + 1`. */
module Quorums {

  datatype GroupOf<T(==)> = Group(n: nat, f: nat, correct: set<T>, faulty: set<T>) {
    ghost function Members(): set<T> {
      correct + faulty
    }

    ghost predicate Valid() {
      && n >= 3 * f + 1
      && correct !! faulty
      && |correct| + |faulty| == n
      && |faulty| <= f
    }
  }

  // Where node identifiers are only compared for equality, any numbering does.
  type Id = nat
  type Group = GroupOf<Id>

  lemma SubsetSize<T>(a: set<T>, b: set<T>)
    requires a <= b
    ensures |a| <= |b|
  {
    assert b == a + (b - a);
    assert |b| == |a| + |b - a|;
  }

  lemma UnionSize<T>(a: set<T>, b: set<T>)
    ensures |a + b| + |a * b| == |a| + |b|
  {
    assert a + b == a + (b - a);
    assert b == (b - a) + a * b;
  }

  // The correct nodes alone form a quorum.
  lemma CorrectQuorum<T>(g: GroupOf<T>)
    requires g.Valid()
    ensures |g.correct| >= g.n - g.f
    ensures |g.Members()| == g.n
  {
  }

  // f + 1 distinct senders include a correct one.
  lemma SomeCorrect<T>(g: GroupOf<T>, a: set<T>) returns (p: T)
    requires g.Valid() && a <= g.Members() && |a| > g.f
    ensures p in a && p in g.correct
  {
    if a * g.correct == {} {
      assert a <= g.faulty;
      SubsetSize(a, g.faulty);
      assert false;
    }
    p :| p in a * g.correct;
  }

  // Two quorums of n - f share a correct node.
  lemma QuorumsMeet<T>(g: GroupOf<T>, a: set<T>, b: set<T>) returns (p: T)
    requires g.Valid() && a <= g.Members() && b <= g.Members()
    requires |a| >= g.n - g.f && |b| >= g.n - g.f
    ensures p in a && p in b && p in g.correct
  {
    CorrectQuorum(g);
    UnionSize(a, b);
    SubsetSize(a + b, g.Members());
    p := SomeCorrect(g, a * b);
  }

  // Of any set of members, all but at most f are correct.
  lemma CorrectPart<T>(g: GroupOf<T>, a: set<T>)
    requires g.Valid() && a <= g.Members()
    ensures |a * g.correct| >= |a| - |g.faulty|
  {
    assert a == a * g.correct + a * g.faulty;
    UnionSize(a * g.correct, a * g.faulty);
    SubsetSize(a * g.faulty, g.faulty);
  }

  lemma Between<T>(a: set<T>, b: set<T>, c: set<T>)
    requires a < b <= c
    ensures |a| < |b| <= |c|
  {
    SubsetSize(b, c);
    assert b == a + (b - a) && b - a != {};
    assert |b| == |a| + |b - a|;
  }
}
