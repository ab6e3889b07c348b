/**
 * The top-3 selection of the career predictor:
 * `np.argsort(probabilities[0])[::-1][:3]` followed by
 * `target_encoder.inverse_transform(top_indices)`.
 * The order among equal probabilities is left open, as `argsort` leaves it.
 */
module Ranking {
  import opened Wrappers

  /** The number of recommendations returned. */
  const TopN: nat := 3

  function Min(a: nat, b: nat): nat {
    if a <= b then a else b
  }

  /** Class indices below `n`, none repeated. */
  predicate DistinctIndices(idx: seq<nat>, n: nat) {
    && (forall i :: 0 <= i < |idx| ==> idx[i] < n)
    && (forall i, j :: 0 <= i < j < |idx| ==> idx[i] != idx[j])
  }

  /** The selected probabilities never increase along the ranking. */
  predicate NonIncreasing(p: seq<real>, idx: seq<nat>)
    requires DistinctIndices(idx, |p|)
  {
    forall i, j :: 0 <= i < j < |idx| ==> p[idx[i]] >= p[idx[j]]
  }

  /** No class left out has a higher probability than a selected one. */
  predicate Dominates(p: seq<real>, idx: seq<nat>)
    requires DistinctIndices(idx, |p|)
  {
    forall k, i :: 0 <= k < |p| && k !in idx && 0 <= i < |idx| ==> p[k] <= p[idx[i]]
  }

  /** `idx` is a valid answer for "the k most probable classes, most probable first". */
  predicate IsTopK(p: seq<real>, k: nat, idx: seq<nat>) {
    && |idx| == Min(k, |p|)
    && DistinctIndices(idx, |p|)
    && NonIncreasing(p, idx)
    && Dominates(p, idx)
  }

  /** The first selected class is a most probable class overall. */
  lemma TopIsMax(p: seq<real>, k: nat, idx: seq<nat>)
    requires IsTopK(p, k, idx) && |idx| > 0
    ensures forall j :: 0 <= j < |p| ==> p[j] <= p[idx[0]]
  {
    forall j | 0 <= j < |p|
      ensures p[j] <= p[idx[0]]
    {
      if j in idx {
        var i :| 0 <= i < |idx| && idx[i] == j;
        assert i == 0 || p[idx[0]] >= p[idx[i]];
      }
    }
  }

  /** Fewer distinct indices than classes leave some class unselected. */
  lemma {:induction false} Unselected(idx: seq<nat>, n: nat) returns (j: nat)
    requires DistinctIndices(idx, n) && |idx| < n
    ensures j < n && j !in idx
    decreases n
  {
    if n - 1 !in idx {
      j := n - 1;
    } else {
      var p :| 0 <= p < |idx| && idx[p] == n - 1;
      var rest := idx[..p] + idx[p + 1..];
      RemoveTop(idx, n, p);
      j := Unselected(rest, n - 1);
    }
  }

  /**
   * Taking the largest possible index `n - 1` out of a distinct selection
   * leaves a distinct selection below `n - 1`, and a value absent from the
   * rest and other than `n - 1` was absent before.
   */
  lemma RemoveTop(idx: seq<nat>, n: nat, p: nat)
    requires DistinctIndices(idx, n) && p < |idx| && idx[p] == n - 1
    ensures DistinctIndices(idx[..p] + idx[p + 1..], n - 1)
    ensures |idx[..p] + idx[p + 1..]| == |idx| - 1
    ensures forall v :: v < n - 1 && v !in idx[..p] + idx[p + 1..] ==> v !in idx
  {
    var rest := idx[..p] + idx[p + 1..];
    RemoveAt(idx, p);
    forall i | 0 <= i < |rest|
      ensures rest[i] < n - 1
    {
      if i >= p {
        assert rest[i] == rest[(i + 1) - 1] == idx[i + 1];
      }
    }
    forall a, b | 0 <= a < b < |rest|
      ensures rest[a] != rest[b]
    {
      var a' := if a < p then a else a + 1;
      var b' := if b < p then b else b + 1;
      assert rest[a] == idx[a'] && rest[b] == idx[b'];
    }
    forall v | v < n - 1 && v !in rest
      ensures v !in idx
    {
      forall i | 0 <= i < |idx|
        ensures idx[i] != v
      {
        if i < p {
          assert idx[i] == rest[i];
        } else if i > p {
          assert idx[i] == rest[i - 1];
        }
      }
    }
  }

  /** Removing position p shifts every later element down by one. */
  lemma RemoveAt<T>(s: seq<T>, p: nat)
    requires p < |s|
    ensures |s[..p] + s[p + 1..]| == |s| - 1
    ensures forall i :: 0 <= i < p ==> (s[..p] + s[p + 1..])[i] == s[i]
    ensures forall i :: p < i < |s| ==> (s[..p] + s[p + 1..])[i - 1] == s[i]
  {
  }

  /** The most probable class not yet selected (the first one, among equals). */
  method BestUnselected(p: seq<real>, idx: seq<nat>) returns (best: nat)
    requires DistinctIndices(idx, |p|) && |idx| < |p|
    ensures best < |p| && best !in idx
    ensures forall k :: 0 <= k < |p| && k !in idx ==> p[k] <= p[best]
  {
    var found := false;
    best := 0;
    var j := 0;
    while j < |p|
      invariant 0 <= j <= |p|
      invariant found ==> best < j && best !in idx
      invariant found ==> forall k :: 0 <= k < j && k !in idx ==> p[k] <= p[best]
      invariant !found ==> forall k :: 0 <= k < j ==> k in idx
    {
      if j !in idx && (!found || p[j] > p[best]) {
        best := j;
        found := true;
      }
      j := j + 1;
    }
    ghost var w := Unselected(idx, |p|);
    assert found;
  }

  /**
   * Selects the `k` most probable classes, most probable first: `min(k, n)`
   * distinct indices, non-increasing in probability, and no class left out
   * is more probable than any selected one.
   */
  method TopIndices(p: seq<real>, k: nat) returns (idx: seq<nat>)
    ensures IsTopK(p, k, idx)
  {
    idx := [];
    while |idx| < k && |idx| < |p|
      invariant |idx| <= Min(k, |p|)
      invariant DistinctIndices(idx, |p|)
      invariant NonIncreasing(p, idx)
      invariant Dominates(p, idx)
      decreases |p| - |idx|
    {
      var best := BestUnselected(p, idx);
      idx := idx + [best];
    }
  }

  /** One ranked career: its name and the probability it was ranked by. */
  datatype Ranked = Ranked(title: string, probability: real)

  /** `inverse_transform` refuses an index with no class behind it. */
  datatype RankError = UnseenLabel

  /**
   * The top-3 block of `predict_career`: picks the top indices, then names
   * them through the target encoder's classes. The title at rank `i` is the
   * class at the `i`-th selected index; the only failure is an index past
   * the class list, which cannot happen when there are at least as many
   * classes as probabilities.
   */
  method RankCareers(p: seq<real>, classes: seq<string>) returns (idx: seq<nat>, r: Result<seq<Ranked>, RankError>)
    ensures IsTopK(p, TopN, idx)
    ensures r.Success? <==> forall i :: 0 <= i < |idx| ==> idx[i] < |classes|
    ensures |p| <= |classes| ==> r.Success?
    ensures r.Success? ==> |r.value| == |idx|
    ensures r.Success? ==> forall i :: 0 <= i < |idx| ==> r.value[i] == Ranked(classes[idx[i]], p[idx[i]])
  {
    idx := TopIndices(p, TopN);
    if forall i :: 0 <= i < |idx| ==> idx[i] < |classes| {
      r := Success(seq(|idx|, i requires 0 <= i < |idx| => Ranked(classes[idx[i]], p[idx[i]])));
    } else {
      r := Failure(UnseenLabel);
    }
  }
}
