/** Lists of indices into a vector of ads, and random samples of them. */
module IndexLists {

  ghost predicate Increasing(s: seq<nat>) {
    forall i, j :: 0 <= i < j < |s| ==> s[i] < s[j]
  }

  lemma AppendIncreasing(s: seq<nat>, x: nat)
    requires Increasing(s) && forall y :: y in s ==> y < x
    ensures Increasing(s + [x])
  {
    forall i, j | 0 <= i < j < |s + [x]|
      ensures (s + [x])[i] < (s + [x])[j]
    {
      assert i < |s| ==> s[i] in s;
    }
  }

  /** `s` keeps some of the elements of `t`, in their order. */
  ghost predicate Subsequence(s: seq<nat>, t: seq<nat>) {
    if s == [] then true
    else if t == [] then false
    else
      var (s', t') := (s[..|s| - 1], t[..|t| - 1]);
      (s[|s| - 1] == t[|t| - 1] && Subsequence(s', t')) || Subsequence(s, t')
  }

  lemma SubsequenceGrows(s: seq<nat>, t: seq<nat>, x: nat)
    requires Subsequence(s, t)
    ensures Subsequence(s, t + [x]) && Subsequence(s + [x], t + [x])
  {
    assert (t + [x])[..|t|] == t && (s + [x])[..|s|] == s;
  }

  lemma {:induction false} SubsequenceMembers(s: seq<nat>, t: seq<nat>)
    requires Subsequence(s, t)
    ensures |s| <= |t| && forall x :: x in s ==> x in t
    decreases |t|
  {
    if s != [] {
      var s', t' := s[..|s| - 1], t[..|t| - 1];
      assert s == s' + [s[|s| - 1]] && t == t' + [t[|t| - 1]];
      if s[|s| - 1] == t[|t| - 1] && Subsequence(s', t') {
        SubsequenceMembers(s', t');
      } else {
        SubsequenceMembers(s, t');
      }
    }
  }

  lemma {:induction false} SubsequenceIncreasing(s: seq<nat>, t: seq<nat>)
    requires Subsequence(s, t) && Increasing(t)
    ensures Increasing(s)
    decreases |t|
  {
    if s != [] {
      var s', t' := s[..|s| - 1], t[..|t| - 1];
      if s[|s| - 1] == t[|t| - 1] && Subsequence(s', t') {
        SubsequenceIncreasing(s', t');
        SubsequenceMembers(s', t');
        assert s == s' + [t[|t| - 1]];
        forall y | y in s'
          ensures y < t[|t| - 1]
        {
          assert y in t';
        }
        AppendIncreasing(s', t[|t| - 1]);
      } else {
        SubsequenceIncreasing(s, t');
      }
    }
  }

  /** A random sample of `n` elements, in their original order. */
  method ChooseRandomElements(from: seq<nat>, n: nat) returns (sampled: seq<nat>)
    requires n <= |from|
    ensures |sampled| == n && Subsequence(sampled, from)
  {
    sampled := [];
    assert from[..0] == [];
    for i := 0 to |from|
      invariant |sampled| <= n <= |sampled| + |from| - i
      invariant Subsequence(sampled, from[..i])
    {
      assert from[..i + 1] == from[..i] + [from[i]];
      SubsequenceGrows(sampled, from[..i], from[i]);
      var take: bool := *;
      if |sampled| < n && (take || n - |sampled| == |from| - i) {
        sampled := sampled + [from[i]];
      }
    }
    assert from[..|from|] == from;
  }
}
