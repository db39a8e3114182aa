/** Lists of indices: order, distinctness, contents. */
module Lists {
  predicate Distinct(s: seq<nat>) {
    forall p, q | 0 <= p < q < |s| :: s[p] != s[q]
  }

  predicate Increasing(s: seq<nat>) {
    forall p, q | 0 <= p < q < |s| :: s[p] < s[q]
  }

  ghost predicate SameElements(s: seq<nat>, t: seq<nat>) {
    |s| == |t| && forall i: nat :: i in s <==> i in t
  }

  function UpTo(n: nat): (r: seq<nat>)
    ensures |r| == n && Increasing(r) && forall i | 0 <= i < n :: r[i] == i
  {
    seq(n, i => i)
  }

  lemma EmptyOrInhabited(s: seq<nat>)
    ensures |s| == 0 || exists i: nat :: i in s
  {
    if |s| > 0 {
      assert s[0] in s;
    }
  }

  lemma {:induction false} DistinctLength(s: seq<nat>, n: nat)
    requires Distinct(s) && forall i: nat :: i in s <==> i < n
    ensures |s| == n
    decreases n
  {
    EmptyOrInhabited(s);
    if n > 0 {
      assert n - 1 in s;
      var p :| 0 <= p < |s| && s[p] == n - 1;
      var rest := s[..p] + s[p + 1..];
      assert s == s[..p] + [n - 1] + s[p + 1..];
      forall i: nat ensures i in rest <==> i < n - 1 {
        if i in rest {
          assert i in s && i != n - 1;
        }
        if i < n - 1 {
          assert i in s;
        }
      }
      DistinctLength(rest, n - 1);
    }
  }

  /** `sorted(s)`. */
  method Sorted(s: set<nat>, bound: nat) returns (r: seq<nat>)
    requires forall k | k in s :: k < bound
    ensures Increasing(r) && forall k: nat :: k in r <==> k in s
  {
    r := [];
    for k := 0 to bound
      invariant Increasing(r) && forall i: nat :: i in r <==> i in s && i < k
    {
      if k in s {
        assert forall p | 0 <= p < |r| :: r[p] in r;
        r := r + [k];
      }
    }
  }
}
