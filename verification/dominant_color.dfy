/** Dominant-colour selection: after k-means has grouped the pixels, the
    clusters are sorted by member count, largest first (a stable sort), and
    the centroid of the first one becomes the result `Color`. The k-means
    algorithm itself is outside the model; its reply is an input. */
module DominantColor {
  import opened Wrappers
  import opened Colors

  /** A cluster centroid: the mean of its members, a point in RGB space. */
  datatype Centroid = Centroid(x: real, y: real, z: real)

  /** One cluster of the k-means reply: its centroid and its member count. */
  datatype Cluster = Cluster(centroid: Centroid, size: nat)

  /** The clusters of a reply. An empty array is excluded: the source reads
      the centroid of its first element without checking that one exists. */
  type Clusters = s: seq<Cluster> | |s| > 0 witness [Cluster(Centroid(0.0, 0.0, 0.0), 0)]

  /** The arguments of the k-means callback: a truthy `err`, and a `result`
      that is either missing (falsy) or the list of clusters. */
  datatype KMeansReply = KMeansReply(err: Option<string>, result: Option<Clusters>)

  /** Why the stage rejects: the error k-means reported, the stage's own
      error ("Clustering failed.") when there is neither an error nor a
      result, or the range error
      of the `Color` built from the chosen centroid. */
  datatype DominantError =
    | KMeansError(message: string)
    | ClusteringFailed
    | ColorRejected(cause: ColorError)

  // ---------------------------------------------------------------------
  // The stable sort by member count, largest first
  // ---------------------------------------------------------------------

  predicate SortedBySizeDesc(s: seq<Cluster>)
  {
    forall i, j :: 0 <= i < j < |s| ==> s[i].size >= s[j].size
  }

  /** Inserts `c` in front of the first cluster that is not larger, so it
      stays ahead of the clusters of equal size that came after it. */
  function InsertBySize(c: Cluster, sorted: seq<Cluster>): (r: seq<Cluster>)
    ensures multiset(r) == multiset(sorted) + multiset{c}
    ensures |r| > 0 && (r[0] == c || (|sorted| > 0 && r[0] == sorted[0]))
  {
    if sorted == [] || c.size >= sorted[0].size then
      [c] + sorted
    else
      assert sorted == [sorted[0]] + sorted[1..];
      [sorted[0]] + InsertBySize(c, sorted[1..])
  }

  /** Inserting never brings in a cluster larger than the ones already
      there and the inserted one. */
  lemma InsertBounded(c: Cluster, sorted: seq<Cluster>, bound: nat)
    requires c.size <= bound
    requires forall x :: x in sorted ==> x.size <= bound
    ensures forall x :: x in InsertBySize(c, sorted) ==> x.size <= bound
  {
    var r := InsertBySize(c, sorted);
    forall x | x in r
      ensures x.size <= bound
    {
      assert x in multiset(r);
      assert x == c || x in multiset(sorted);
    }
  }

  /** Inserting into a sorted list keeps it sorted. */
  lemma {:induction false} InsertKeepsSorted(c: Cluster, sorted: seq<Cluster>)
    requires SortedBySizeDesc(sorted)
    ensures SortedBySizeDesc(InsertBySize(c, sorted))
  {
    if sorted != [] && c.size < sorted[0].size {
      var head, tail := sorted[0], sorted[1..];
      var rest := InsertBySize(c, tail);
      var r := [head] + rest;
      assert InsertBySize(c, sorted) == r;
      InsertKeepsSorted(c, tail);
      InsertBounded(c, tail, head.size);
      forall i, j | 0 <= i < j < |r|
        ensures r[i].size >= r[j].size
      {
        if i == 0 {
          assert r[j] in rest;
        } else {
          assert r[i] == rest[i - 1] && r[j] == rest[j - 1];
        }
      }
    }
  }

  /** `clusters.sort((a, b) => b.cluster.length - a.cluster.length)` by
      decreasing size. Insertion keeps equal clusters in input order, as the
      stable `Array.prototype.sort` does; of that order only the head is
      proved (`SortHeadIsEarliestLargest`), which is all the stage reads. */
  function SortBySizeDesc(s: seq<Cluster>): (r: seq<Cluster>)
    ensures multiset(r) == multiset(s)
    ensures SortedBySizeDesc(r)
  {
    if s == [] then
      []
    else
      assert s == [s[0]] + s[1..];
      InsertKeepsSorted(s[0], SortBySizeDesc(s[1..]));
      InsertBySize(s[0], SortBySizeDesc(s[1..]))
  }

  // ---------------------------------------------------------------------
  // The reference: the earliest of the largest clusters
  // ---------------------------------------------------------------------

  /** Cluster `i` has the most members, and every earlier cluster has
      strictly fewer. */
  predicate IsEarliestLargest(s: seq<Cluster>, i: int)
  {
    0 <= i < |s| &&
    (forall j :: 0 <= j < |s| ==> s[j].size <= s[i].size) &&
    (forall j :: 0 <= j < i ==> s[j].size < s[i].size)
  }

  /** At most one index is the earliest largest. */
  lemma EarliestLargestUnique(s: seq<Cluster>, i: int, j: int)
    requires IsEarliestLargest(s, i) && IsEarliestLargest(s, j)
    ensures i == j
  {
    assert s[i].size <= s[j].size && s[j].size <= s[i].size;
  }

  /** The index of the earliest largest cluster. */
  function LargestIndex(s: seq<Cluster>): (i: nat)
    requires |s| > 0
    ensures IsEarliestLargest(s, i)
  {
    if |s| == 1 then
      0
    else
      var j := 1 + LargestIndex(s[1..]);
      if s[0].size >= s[j].size then 0 else j
  }

  /** The stable sort puts the earliest largest cluster first: ties go to
      the cluster that came first in the k-means reply. */
  lemma {:induction false} SortHeadIsEarliestLargest(s: seq<Cluster>)
    requires |s| > 0
    ensures SortBySizeDesc(s)[0] == s[LargestIndex(s)]
  {
    if |s| > 1 {
      SortHeadIsEarliestLargest(s[1..]);
    }
  }

  // ---------------------------------------------------------------------
  // The stage
  // ---------------------------------------------------------------------

  /** The `Color` built from a centroid, a range error becoming the
      stage's rejection. */
  function ColorOfCentroid(c: Centroid): (res: Result<Color, DominantError>)
    ensures res.Failure? <==> !(InRange(c.x) && InRange(c.y) && InRange(c.z))
    ensures res.Failure? ==> res.error == ColorRejected(RangeError(RangeMessage))
    ensures res.Success? ==> res.value.Valid()
    ensures res.Success? ==> res.value.Rgb() == [Round(c.x), Round(c.y), Round(c.z)]
  {
    var built := NewColor(c.x, c.y, c.z);
    if built.Success? then
      RgbOfNewColor(c.x, c.y, c.z);
      Success(built.value)
    else
      Failure(ColorRejected(built.error))
  }

  /** The k-means callback of `calculateDominantColor`: rejects with the
      reported error, or with the stage's own error when the result is
      missing; otherwise resolves to the colour of the earliest largest
      cluster's centroid. */
  function CalculateDominantColor(reply: KMeansReply): (res: Result<Color, DominantError>)
    ensures reply.err.Some? ==> res == Failure(KMeansError(reply.err.value))
    ensures reply.err.None? && reply.result.None? ==> res == Failure(ClusteringFailed)
    ensures reply.err.None? && reply.result.Some? ==>
              var clusters := reply.result.value;
              res == ColorOfCentroid(clusters[LargestIndex(clusters)].centroid)
    ensures res.Success? ==>
              reply.err.None? && reply.result.Some? && res.value.Valid() &&
              exists i :: IsEarliestLargest(reply.result.value, i) &&
                var c := reply.result.value[i].centroid;
                res.value.Rgb() == [Round(c.x), Round(c.y), Round(c.z)]
  {
    if reply.err.Some? then
      Failure(KMeansError(reply.err.value))
    else if reply.result.None? then
      Failure(ClusteringFailed)
    else
      var clusters := reply.result.value;
      SortHeadIsEarliestLargest(clusters);
      var c := SortBySizeDesc(clusters)[0].centroid;
      var res := ColorOfCentroid(c);
      if res.Success? then
        RgbOfNewColor(c.x, c.y, c.z);
        res
      else
        res
  }
}
