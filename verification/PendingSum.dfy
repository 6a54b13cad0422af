/** The sum of a family of multisets indexed by segment number. */
module PendingSum {
  ghost function Sum<T>(m: map<nat, multiset<T>>, n: nat): (total: multiset<T>)
  {
    if n == 0 then multiset{} else Sum(m, n - 1) + Part(m, n)
  }

  ghost function Part<T>(m: map<nat, multiset<T>>, v: nat): (part: multiset<T>)
  {
    if v in m then m[v] else multiset{}
  }

  /** Two families that agree except at v differ in the sum by that part. */
  lemma {:induction false} SumChange<T>(m: map<nat, multiset<T>>, m': map<nat, multiset<T>>, v: nat, n: nat)
    requires forall k :: k != v ==> Part(m, k) == Part(m', k)
    ensures 1 <= v <= n ==> Sum(m', n) + Part(m, v) == Sum(m, n) + Part(m', v)
    ensures !(1 <= v <= n) ==> Sum(m', n) == Sum(m, n)
    decreases n
  {
    hide Part;
    if n > 0 {
      SumChange(m, m', v, n - 1);
      var a, b, p, q := Sum(m', n - 1), Sum(m, n - 1), Part(m, v), Part(m', v);
      if v == n {
        assert a + q + p == a + p + q;
      } else if 1 <= v < n {
        var x := Part(m, n);
        assert a + x + p == a + p + x;
        assert b + x + q == b + q + x;
      }
    }
  }

  /** Parts above the bound are empty, so a larger bound adds nothing. */
  lemma SumExtend<T>(m: map<nat, multiset<T>>, n: nat)
    requires n + 1 !in m
    ensures Sum(m, n + 1) == Sum(m, n)
  {
  }

  lemma Cancel<T>(a: multiset<T>, b: multiset<T>, p: multiset<T>)
    requires a + p == b + p
    ensures a == b
  {
    forall x
      ensures a[x] == b[x]
    {
      assert (a + p)[x] == (b + p)[x];
    }
  }

  /** If only the part at v grows, by x, then the sum grows by x. */
  lemma SumGrow<T>(m: map<nat, multiset<T>>, m': map<nat, multiset<T>>, v: nat, n: nat, x: multiset<T>)
    requires 1 <= v <= n
    requires forall k :: k != v ==> Part(m, k) == Part(m', k)
    requires Part(m', v) == Part(m, v) + x
    ensures Sum(m', n) == Sum(m, n) + x
  {
    hide Part, Sum;
    SumChange(m, m', v, n);
    assert Sum(m, n) + Part(m', v) == Sum(m, n) + x + Part(m, v);
    Cancel(Sum(m', n), Sum(m, n) + x, Part(m, v));
  }
}
