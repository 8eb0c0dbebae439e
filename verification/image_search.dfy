/** The image-search fallback: starting from a randomly drawn backend,
    try every configured search backend once, in round-robin order, and
    return the first answer. */
module ImageSearch {

  /** One search hit: the URL of an image. */
  datatype SearchResult = SearchResult(url: string)

  /** What one backend does when it is called for this query: it answers
      with a list of hits or it throws. The backends themselves (HTTP
      clients) are outside the model; only their outcome matters here. */
  datatype Backend = Answers(results: seq<SearchResult>) | Throws(message: string)

  /** The result of the whole search: the hits of the first backend that
      answered, or the aggregate error ("All functions failed") once every
      backend has thrown. */
  datatype SearchOutcome = Found(results: seq<SearchResult>) | AllFunctionsFailed

  /** `Math.floor(Math.random() * n)`, with the draw of `Math.random()`
      given as `u` in [0, 1). */
  function StartOffset(u: real, n: nat): (offset: nat)
    requires 0.0 <= u < 1.0
    ensures offset as real <= u * n as real < offset as real + 1.0
    ensures n == 0 ==> offset == 0
    ensures n > 0 ==> offset < n
  {
    var x := u * n as real;
    assert 0.0 <= x;
    assert n as real - x == (1.0 - u) * n as real;
    assert n > 0 ==> (1.0 - u) * n as real > 0.0;
    x.Floor
  }

  /** No two entries of `s` are equal. */
  predicate Distinct(s: seq<nat>)
  {
    forall i, j :: 0 <= i < j < |s| ==> s[i] != s[j]
  }

  /** The backend index of attempt `k` when the cycle starts at `offset`:
      `(offset + k) % n`. Both operands are non-negative and `n > 0`, so
      JavaScript's truncating `%` and Dafny's Euclidean `%` agree here. */
  function Slot(offset: nat, k: nat, n: nat): (index: nat)
    requires n > 0
    ensures index < n
    ensures (offset + k) / n * n + index == offset + k
  {
    (offset + k) % n
  }

  /** A non-zero multiple of `n` is at least `n` away from zero. */
  lemma MultipleBounds(d: int, n: int)
    requires n > 0
    ensures d >= 1 ==> d * n >= n
    ensures d <= -1 ==> d * n <= -n
  {
    if d >= 1 {
      assert d * n == (d - 1) * n + n;
      assert (d - 1) * n >= 0;
    } else if d <= -1 {
      assert d * n == (d + 1) * n - n;
      assert (d + 1) * n <= 0;
    }
  }

  /** Euclidean division is unique: `x == q * n + r` with `0 <= r < n`
      means `x % n == r`. Used on the non-negative `offset + retryCount`,
      where it is also what JavaScript's truncating `%` computes. */
  lemma ModOfQuotientForm(x: int, q: int, r: int, n: int)
    requires n > 0 && 0 <= r < n && x == q * n + r
    ensures x % n == r
  {
    var q', r' := x / n, x % n;
    assert x == q' * n + r';
    assert r' - r == (q - q') * n;
    MultipleBounds(q - q', n);
  }

  /** Within one cycle the attempts use pairwise different backends. */
  lemma SlotsDistinct(offset: nat, i: nat, j: nat, n: nat)
    requires n > 0 && i < j < n
    ensures Slot(offset, i, n) != Slot(offset, j, n)
  {
    var qi, qj := (offset + i) / n, (offset + j) / n;
    var ri, rj := (offset + i) % n, (offset + j) % n;
    assert offset + i == qi * n + ri;
    assert offset + j == qj * n + rj;
    assert j - i == (qj - qi) * n + (rj - ri);
    MultipleBounds(qj - qi, n);
  }

  /** Within one cycle every backend is reached: backend `j` is tried by
      attempt `(j - offset) mod n`. */
  lemma SlotsCover(offset: nat, j: nat, n: nat) returns (k: nat)
    requires offset < n && j < n
    ensures k < n && Slot(offset, k, n) == j
  {
    if offset <= j {
      k := j - offset;
      assert offset + k == 0 * n + j;
      ModOfQuotientForm(offset + k, 0, j, n);
    } else {
      k := j + n - offset;
      assert offset + k == 1 * n + j;
      ModOfQuotientForm(offset + k, 1, j, n);
    }
  }

  /** `imageSearch`: attempt `k` calls backend `(offset + k) mod n`; the first
      answer is returned at once; the aggregate error is raised when the
      n-th attempt throws; with no backends the result is an empty list.
      `attempts` lists the backends called, in order. */
  method Search(backends: seq<Backend>, u: real) returns (outcome: SearchOutcome, attempts: seq<nat>)
    requires 0.0 <= u < 1.0
    ensures |attempts| <= |backends|
    ensures |backends| > 0 ==> forall k :: 0 <= k < |attempts| ==>
              attempts[k] == Slot(StartOffset(u, |backends|), k, |backends|)
    ensures forall k :: 0 <= k < |attempts| ==> attempts[k] < |backends|
    ensures Distinct(attempts)
    ensures forall k :: 0 <= k < |attempts| - 1 ==> backends[attempts[k]].Throws?
    ensures outcome.Found? && |backends| > 0 ==>
              |attempts| > 0 && backends[attempts[|attempts| - 1]] == Answers(outcome.results)
    ensures outcome.AllFunctionsFailed? <==>
              |backends| > 0 && forall i :: 0 <= i < |backends| ==> backends[i].Throws?
    ensures outcome.AllFunctionsFailed? ==>
              |attempts| == |backends| && forall i :: 0 <= i < |backends| ==> i in attempts
    ensures |backends| == 0 ==> outcome == Found([]) && attempts == []
  {
    var n := |backends|;
    var offset := StartOffset(u, n);
    attempts := [];
    var retry := 0;
    while retry < n
      invariant retry <= n && (n == 0 || retry < n)
      invariant |attempts| == retry
      invariant forall k :: 0 <= k < retry ==> attempts[k] == Slot(offset, k, n)
      invariant forall k :: 0 <= k < retry ==> backends[attempts[k]].Throws?
      decreases n - retry
    {
      var index := Slot(offset, retry, n);
      attempts := attempts + [index];
      assert Distinct(attempts) by {
        forall i, j | 0 <= i < j < |attempts|
          ensures attempts[i] != attempts[j]
        {
          SlotsDistinct(offset, i, j, n);
        }
      }
      match backends[index]
      case Answers(results) =>
        outcome := Found(results);
        return;
      case Throws(_) =>
        if retry == n - 1 {
          forall i | 0 <= i < n
            ensures i in attempts && backends[i].Throws?
          {
            var k := SlotsCover(offset, i, n);
            assert attempts[k] == i;
          }
          outcome := AllFunctionsFailed;
          return;
        }
      retry := retry + 1;
    }
    outcome := Found([]);
  }
}
