/** The bucket array of a Bloom filter as a value: where the double-hashing scheme
    probes, what `record` does to the buckets, what `contains` answers, how many
    buckets are populated, and the bucket-wise union and intersection. The class in
    bloom_filter.dfy is specified in these terms; every property of the buckets is
    proved here, once, about these functions. */
module BloomBuckets {

  /** `std::size_t` arithmetic on a 64-bit target wraps modulo 2^64. */
  const WordModulus: nat := 0x1_0000_0000_0000_0000

  type Word = x: nat | x < WordModulus

  /** The hash is split by shifting `sizeof(std::size_t) / 2` = 4 BITS, so the
      factor is 2^4 (not a split into a high and a low 32-bit half). */
  const ShiftFactor: nat := 16

  /** `hash << shift`, truncated to 64 bits: the low 60 bits of the hash moved up
      by 4, with the 4 low bits clear. */
  function HashA(h: Word): (a: Word)
    ensures a % 16 == 0 && a / 16 == h % 0x1000_0000_0000_0000
  {
    (h * ShiftFactor) % WordModulus
  }

  /** `hash >> shift`: the hash with its 4 low bits dropped. */
  function HashB(h: Word): (b: Word)
    ensures b * 16 <= h < b * 16 + 16
  {
    h / ShiftFactor
  }

  /** The bucket probed by the n-th of the simulated hash functions:
      `(hashA + n * hashB) mod 2^64 mod size`. Defined only for a non-empty
      bucket array, since the modulus by zero is undefined in the source. */
  function Probe(h: Word, n: nat, size: nat): (i: nat)
    requires size > 0
    ensures i < size
  {
    (HashA(h) + n * HashB(h)) % WordModulus % size
  }

  /** One of the first k probes of h lands on bucket i. */
  ghost predicate Hits(h: Word, k: nat, size: nat, i: nat)
  {
    size > 0 && exists n :: 0 <= n < k && Probe(h, n, size) == i
  }

  /** The buckets after the first k probes of h have been set, in the order the
      loop of `record` visits them. A probe needs a bucket only when k > 0. */
  function Recorded(b: seq<bool>, h: Word, k: nat): (r: seq<bool>)
    requires k == 0 || |b| > 0
    ensures |r| == |b|
    decreases k
  {
    if k == 0 then b else Recorded(b, h, k - 1)[Probe(h, k - 1, |b|) := true]
  }

  /** What `contains` answers: every one of the first k probes of h finds its
      bucket set. */
  predicate AllProbesSet(b: seq<bool>, h: Word, k: nat)
    requires k == 0 || |b| > 0
  {
    forall n :: 0 <= n < k ==> b[Probe(h, n, |b|)]
  }

  /** The buckets after recording the hashes hs one after the other. */
  function RecordAll(b: seq<bool>, hs: seq<Word>, k: nat): (r: seq<bool>)
    requires k == 0 || |b| > 0
    ensures |r| == |b|
    decreases |hs|
  {
    if hs == [] then b else RecordAll(Recorded(b, hs[0], k), hs[1..], k)
  }

  /** `std::count(buckets.begin(), buckets.end(), true)`. */
  function CountTrue(b: seq<bool>): (c: nat)
    ensures c <= |b|
    ensures c == 0 <==> forall i :: 0 <= i < |b| ==> !b[i]
  {
    if b == [] then 0 else (if b[0] then 1 else 0) + CountTrue(b[1..])
  }

  /** The buckets of `filterUnion`. */
  function BucketUnion(a: seq<bool>, c: seq<bool>): seq<bool>
    requires |a| == |c|
  {
    seq(|a|, i requires 0 <= i < |a| => a[i] || c[i])
  }

  /** The buckets of `filterIntersection`. */
  function BucketIntersection(a: seq<bool>, c: seq<bool>): seq<bool>
    requires |a| == |c|
  {
    seq(|a|, i requires 0 <= i < |a| => a[i] && c[i])
  }

  // ---------------------------------------------------------------------------
  // Recording

  /** A bucket is set after recording exactly when it was set before or one of the
      k probes landed on it: `record` sets the probed buckets and nothing else. */
  lemma {:induction false} RecordedAt(b: seq<bool>, h: Word, k: nat, i: nat)
    requires i < |b|
    ensures Recorded(b, h, k)[i] <==> b[i] || Hits(h, k, |b|, i)
    decreases k
  {
    if k > 0 {
      RecordedAt(b, h, k - 1, i);
      if Probe(h, k - 1, |b|) == i {
        assert Hits(h, k, |b|, i);
      } else if Hits(h, k, |b|, i) {
        var n :| 0 <= n < k && Probe(h, n, |b|) == i;
        assert n < k - 1;
        assert Hits(h, k - 1, |b|, i);
      }
    }
  }

  /** No false negatives: right after recording h, `contains` of h is true. */
  lemma {:induction false} RecordedContains(b: seq<bool>, h: Word, k: nat)
    requires k == 0 || |b| > 0
    ensures AllProbesSet(Recorded(b, h, k), h, k)
  {
    forall n | 0 <= n < k
      ensures Recorded(b, h, k)[Probe(h, n, |b|)]
    {
      RecordedAt(b, h, k, Probe(h, n, |b|));
      assert Hits(h, k, |b|, Probe(h, n, |b|));
    }
  }

  /** Recording only ever turns buckets from false to true, so a value `contains`
      accepted before recording g is still accepted afterwards. */
  lemma {:induction false} RecordedMonotone(b: seq<bool>, g: Word, h: Word, k: nat)
    requires k == 0 || |b| > 0
    ensures forall i :: 0 <= i < |b| && b[i] ==> Recorded(b, g, k)[i]
    ensures AllProbesSet(b, h, k) ==> AllProbesSet(Recorded(b, g, k), h, k)
  {
    forall i | 0 <= i < |b| && b[i]
      ensures Recorded(b, g, k)[i]
    {
      RecordedAt(b, g, k, i);
    }
  }

  /** Recording the same hash twice leaves the buckets as recording it once. */
  lemma RecordedIdempotent(b: seq<bool>, h: Word, k: nat)
    requires k == 0 || |b| > 0
    ensures Recorded(Recorded(b, h, k), h, k) == Recorded(b, h, k)
  {
    var once := Recorded(b, h, k);
    forall i | 0 <= i < |b|
      ensures Recorded(once, h, k)[i] == once[i]
    {
      RecordedAt(once, h, k, i);
      RecordedAt(b, h, k, i);
    }
  }

  /** Recording g then h gives the same buckets as recording h then g. */
  lemma RecordedCommute(b: seq<bool>, g: Word, h: Word, k: nat)
    requires k == 0 || |b| > 0
    ensures Recorded(Recorded(b, g, k), h, k) == Recorded(Recorded(b, h, k), g, k)
  {
    var gh := Recorded(Recorded(b, g, k), h, k);
    var hg := Recorded(Recorded(b, h, k), g, k);
    forall i | 0 <= i < |b|
      ensures gh[i] == hg[i]
    {
      RecordedAt(Recorded(b, g, k), h, k, i);
      RecordedAt(b, g, k, i);
      RecordedAt(Recorded(b, h, k), g, k, i);
      RecordedAt(b, h, k, i);
    }
  }

  /** After recording a stream of hashes, a bucket is set exactly when it was set
      before or some probe of some recorded hash landed on it. */
  lemma {:induction false} RecordAllAt(b: seq<bool>, hs: seq<Word>, k: nat, i: nat)
    requires i < |b|
    ensures RecordAll(b, hs, k)[i] <==> b[i] || exists x :: x in hs && Hits(x, k, |b|, i)
    decreases |hs|
  {
    if hs != [] {
      var b' := Recorded(b, hs[0], k);
      RecordAllAt(b', hs[1..], k, i);
      RecordedAt(b, hs[0], k, i);
      assert hs == [hs[0]] + hs[1..];
      if exists x :: x in hs && Hits(x, k, |b|, i) {
        var x :| x in hs && Hits(x, k, |b|, i);
        if x != hs[0] {
          assert x in hs[1..];
        }
      }
    }
  }

  /** Recording the same values in any order, with any repetitions, gives the same
      buckets: the buckets depend only on the set of values recorded. */
  lemma RecordAllOrderFree(b: seq<bool>, hs: seq<Word>, gs: seq<Word>, k: nat)
    requires k == 0 || |b| > 0
    requires forall x :: x in hs <==> x in gs
    ensures RecordAll(b, hs, k) == RecordAll(b, gs, k)
  {
    forall i | 0 <= i < |b|
      ensures RecordAll(b, hs, k)[i] == RecordAll(b, gs, k)[i]
    {
      RecordAllAt(b, hs, k, i);
      RecordAllAt(b, gs, k, i);
    }
  }

  // ---------------------------------------------------------------------------
  // Populated buckets

  /** Setting one bucket raises the count by one if it was clear, else not at all. */
  lemma {:induction false} CountTrueSet(b: seq<bool>, i: nat)
    requires i < |b|
    ensures CountTrue(b[i := true]) == CountTrue(b) + (if b[i] then 0 else 1)
  {
    if i == 0 {
      assert b[i := true][1..] == b[1..];
    } else {
      assert b[i := true][1..] == b[1..][i - 1 := true];
      CountTrueSet(b[1..], i - 1);
    }
  }

  /** Recording with k probes never lowers the populated count and raises it by at
      most k; on an empty filter at most k buckets end up populated. */
  lemma {:induction false} RecordedPopulation(b: seq<bool>, h: Word, k: nat)
    requires k == 0 || |b| > 0
    ensures CountTrue(b) <= CountTrue(Recorded(b, h, k)) <= CountTrue(b) + k
    decreases k
  {
    if k > 0 {
      RecordedPopulation(b, h, k - 1);
      CountTrueSet(Recorded(b, h, k - 1), Probe(h, k - 1, |b|));
    }
  }

  // ---------------------------------------------------------------------------
  // Union and intersection

  /** Union is commutative, and its `contains` accepts every value that either
      operand accepts. */
  lemma UnionContains(a: seq<bool>, c: seq<bool>, h: Word, k: nat)
    requires |a| == |c|
    requires k == 0 || |a| > 0
    ensures BucketUnion(a, c) == BucketUnion(c, a)
    ensures AllProbesSet(a, h, k) || AllProbesSet(c, h, k) ==> AllProbesSet(BucketUnion(a, c), h, k)
  {
  }

  /** Intersection is commutative, and its `contains` accepts a value exactly
      when both operands accept it. */
  lemma IntersectionContains(a: seq<bool>, c: seq<bool>, h: Word, k: nat)
    requires |a| == |c|
    requires k == 0 || |a| > 0
    ensures BucketIntersection(a, c) == BucketIntersection(c, a)
    ensures AllProbesSet(BucketIntersection(a, c), h, k) <==> AllProbesSet(a, h, k) && AllProbesSet(c, h, k)
  {
  }

  /** Merging by union commutes with recording: recording h into one operand and
      then taking the union gives the buckets of recording h into the union, so
      the union of two filters is the filter of both insertion streams. */
  lemma {:induction false} RecordedUnion(a: seq<bool>, c: seq<bool>, h: Word, k: nat)
    requires |a| == |c|
    requires k == 0 || |a| > 0
    ensures BucketUnion(Recorded(a, h, k), c) == Recorded(BucketUnion(a, c), h, k)
    decreases k
  {
    if k > 0 {
      RecordedUnion(a, c, h, k - 1);
    }
  }
}
