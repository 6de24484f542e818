/** Small shared vocabulary: optional values, facts about finite sets, and an element taken out of a
 sequence. */
module Prelude {
  datatype Option<+T> = None | Some(value: T)

  /** A subset of a finite set is no larger. */
  lemma SubsetCardinality<T>(a: set<T>, b: set<T>)
    requires a <= b
    ensures |a| <= |b|
    ensures a != b ==> |a| < |b|
  {
    assert b == a + (b - a);
  }

  /** A set of naturals all below n has at most n members. */
  lemma {:induction false} BoundedCardinality(a: set<nat>, n: nat)
    requires forall x :: x in a ==> x < n
    ensures |a| <= n
  {
    if n == 0 {
      assert a == {};
    } else {
      BoundedCardinality(a - {n - 1}, n - 1);
      assert a <= (a - {n - 1}) + {n - 1};
      SubsetCardinality(a, (a - {n - 1}) + {n - 1});
    }
  }

  /** Where t is in s; |s| if it is not. */
  function Find<T(==)>(s: seq<T>, t: T): (k: nat)
    ensures k <= |s| && t !in s[..k] && (k < |s| ==> s[k] == t)
    ensures k == |s| <==> t !in s
  {
    if s == [] then 0
    else if s[0] == t then 0
    else
      assert s == [s[0]] + s[1..];
      var k := Find(s[1..], t) + 1;
      assert s[..k] == [s[0]] + s[1..][..k - 1];
      k
  }

  lemma FindIs<T>(s: seq<T>, t: T, k: nat)
    requires k < |s| && s[k] == t && t !in s[..k]
    ensures Find(s, t) == k
  {
    var f := Find(s, t);
    assert forall i :: 0 <= i < k ==> s[..k][i] == s[i];
    assert forall i :: 0 <= i < f ==> s[..f][i] == s[i];
  }

  /** s without the first t in it. */
  function Without<T(==)>(s: seq<T>, t: T): seq<T>
  {
    var k := Find(s, t);
    if k == |s| then s else s[..k] + s[k + 1..]
  }

  /** r is s without its k-th element. */
  ghost predicate OneLess<T>(s: seq<T>, r: seq<T>, k: nat)
  {
    && k < |s| && |r| == |s| - 1
    && (forall i: nat :: i < k ==> r[i] == s[i])
    && (forall i: nat :: k <= i < |r| ==> r[i] == s[i + 1])
  }

  lemma WithoutAt<T>(s: seq<T>, t: T)
    requires t in s
    ensures OneLess(s, Without(s, t), Find(s, t))
  {
  }

  lemma OneElement<T>(s: set<T>, t: T)
    ensures |s + {t}| == |s| + (if t in s then 0 else 1)
    ensures |s - {t}| == |s| - (if t in s then 1 else 0)
  {
    if t in s {
      assert s + {t} == s && s == (s - {t}) + {t};
    } else {
      assert s - {t} == s;
    }
  }
}
