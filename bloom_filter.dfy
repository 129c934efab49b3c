/** The Bloom filter object: a fixed-length bucket array updated in place, a hash
    count, and the hash of the value type. Each operation is specified by the
    bucket functions of BloomBuckets. */
module Bloom {
  import opened BloomBuckets

  /** Why a union or intersection is refused; the hash count is checked first. */
  datatype ShapeError = HashCountMismatch | BucketCountMismatch

  datatype Result<T> = Ok(value: T) | Err(error: ShapeError)

  class BloomFilter<V> {
    /** The hash function of the value type (the class's Hash parameter). */
    const hash: V -> Word
    /** `numHashes()`: probes per value, fixed at construction. */
    const numHashes: nat
    /** The buckets; `numBuckets()` is `buckets.Length`. */
    const buckets: array<bool>

    /** `BloomFilter(num_buckets, num_hashes)`: every bucket clear. */
    constructor (numBuckets: nat, numHashes: nat, hash: V -> Word)
      ensures this.numHashes == numHashes && this.hash == hash
      ensures fresh(buckets) && buckets.Length == numBuckets
      ensures forall i :: 0 <= i < numBuckets ==> !buckets[i]
      ensures Populated() == 0
    {
      this.hash := hash;
      this.numHashes := numHashes;
      buckets := new bool[numBuckets](_ => false);
    }

    /** `numBucketsPopulated()`: how many buckets are set. */
    function Populated(): (p: nat)
      reads buckets
      ensures p <= buckets.Length
      ensures p == 0 <==> forall i :: 0 <= i < buckets.Length ==> !buckets[i]
    {
      CountTrue(buckets[..])
    }

    /** `record(value)`: set the bucket of each of the `numHashes` probes. The
        modulus by the bucket count is reached only when there is a probe. */
    method Record(v: V)
      requires numHashes == 0 || buckets.Length > 0
      modifies buckets
      ensures buckets[..] == Recorded(old(buckets[..]), hash(v), numHashes)
      ensures AllProbesSet(buckets[..], hash(v), numHashes)
      ensures forall i :: 0 <= i < buckets.Length && old(buckets[i]) ==> buckets[i]
      ensures old(Populated()) <= Populated() <= old(Populated()) + numHashes
    {
      var h := hash(v);
      ghost var before := buckets[..];
      var n := 0;
      while n < numHashes
        invariant n <= numHashes
        invariant buckets[..] == Recorded(before, h, n)
      {
        buckets[Probe(h, n, buckets.Length)] := true;
        n := n + 1;
      }
      RecordedContains(before, h, numHashes);
      RecordedMonotone(before, h, h, numHashes);
      RecordedPopulation(before, h, numHashes);
    }

    /** `contains(value)`: false at the first probe that finds a clear bucket. */
    method Contains(v: V) returns (found: bool)
      requires numHashes == 0 || buckets.Length > 0
      ensures found <==> AllProbesSet(buckets[..], hash(v), numHashes)
    {
      var h := hash(v);
      var n := 0;
      while n < numHashes
        invariant n <= numHashes
        invariant forall j :: 0 <= j < n ==> buckets[Probe(h, j, buckets.Length)]
      {
        if !buckets[Probe(h, n, buckets.Length)] {
          return false;
        }
        n := n + 1;
      }
      return true;
    }

    /** `operator==`: equal hash counts and equal bucket vectors. The hash
        function is part of the type in the source and is not compared. */
    predicate Equals(other: BloomFilter<V>)
      reads buckets, other.buckets
      ensures Equals(other) <==>
        numHashes == other.numHashes && buckets.Length == other.buckets.Length &&
        forall i :: 0 <= i < buckets.Length ==> buckets[i] == other.buckets[i]
    {
      numHashes == other.numHashes && buckets[..] == other.buckets[..]
    }

    /** `operator==` is an equivalence, and it never holds between filters of
        different hash counts or bucket counts. */
    lemma EqualsIsEquivalence(b: BloomFilter<V>, c: BloomFilter<V>)
      ensures Equals(this)
      ensures Equals(b) ==> b.Equals(this)
      ensures Equals(b) && b.Equals(c) ==> Equals(c)
      ensures numHashes != b.numHashes || buckets.Length != b.buckets.Length ==> !Equals(b)
    {
    }

    /** `filterUnion(lhs, rhs)`: a new filter whose buckets are the bucket-wise OR. */
    static method Union(lhs: BloomFilter<V>, rhs: BloomFilter<V>) returns (r: Result<BloomFilter<V>>)
      requires lhs.hash == rhs.hash
      ensures r.Err? <==> lhs.numHashes != rhs.numHashes || lhs.buckets.Length != rhs.buckets.Length
      ensures r.Err? ==> r.error == (if lhs.numHashes != rhs.numHashes then HashCountMismatch else BucketCountMismatch)
      ensures r.Ok? ==>
        fresh(r.value.buckets) && r.value.hash == lhs.hash && r.value.numHashes == lhs.numHashes &&
        r.value.buckets[..] == BucketUnion(lhs.buckets[..], rhs.buckets[..])
    {
      if lhs.numHashes != rhs.numHashes {
        return Err(HashCountMismatch);
      }
      if lhs.buckets.Length != rhs.buckets.Length {
        return Err(BucketCountMismatch);
      }
      var result := new BloomFilter(lhs.buckets.Length, lhs.numHashes, lhs.hash);
      for i := 0 to result.buckets.Length
        invariant forall j :: 0 <= j < i ==> result.buckets[j] == (lhs.buckets[j] || rhs.buckets[j])
      {
        result.buckets[i] := lhs.buckets[i] || rhs.buckets[i];
      }
      return Ok(result);
    }

    /** `filterIntersection(lhs, rhs)`: a new filter whose buckets are the
        bucket-wise AND. */
    static method Intersection(lhs: BloomFilter<V>, rhs: BloomFilter<V>) returns (r: Result<BloomFilter<V>>)
      requires lhs.hash == rhs.hash
      ensures r.Err? <==> lhs.numHashes != rhs.numHashes || lhs.buckets.Length != rhs.buckets.Length
      ensures r.Err? ==> r.error == (if lhs.numHashes != rhs.numHashes then HashCountMismatch else BucketCountMismatch)
      ensures r.Ok? ==>
        fresh(r.value.buckets) && r.value.hash == lhs.hash && r.value.numHashes == lhs.numHashes &&
        r.value.buckets[..] == BucketIntersection(lhs.buckets[..], rhs.buckets[..])
    {
      if lhs.numHashes != rhs.numHashes {
        return Err(HashCountMismatch);
      }
      if lhs.buckets.Length != rhs.buckets.Length {
        return Err(BucketCountMismatch);
      }
      var result := new BloomFilter(lhs.buckets.Length, lhs.numHashes, lhs.hash);
      for i := 0 to result.buckets.Length
        invariant forall j :: 0 <= j < i ==> result.buckets[j] == (lhs.buckets[j] && rhs.buckets[j])
      {
        result.buckets[i] := lhs.buckets[i] && rhs.buckets[i];
      }
      return Ok(result);
    }
  }

  // ---------------------------------------------------------------------------
  // Clients: the scenarios of the unit tests, proved from the contracts above.

  /** Two filters of one shape that record the same two values in opposite
      orders are equal. */
  method RecordBothOrders<V>(numBuckets: nat, numHashes: nat, hash: V -> Word, x: V, y: V)
    returns (equal: bool)
    requires numHashes == 0 || numBuckets > 0
    ensures equal
  {
    var a := new BloomFilter(numBuckets, numHashes, hash);
    var b := new BloomFilter(numBuckets, numHashes, hash);
    assert a.buckets[..] == b.buckets[..];
    ghost var empty := a.buckets[..];
    a.Record(x);
    a.Record(y);
    b.Record(y);
    b.Record(x);
    RecordedCommute(empty, hash(x), hash(y), numHashes);
    equal := a.Equals(b);
  }

  /** The union of a filter holding x and y with a filter holding z accepts all
      three, and does not depend on the order of its operands. */
  method UnionOfRecorded<V>(numBuckets: nat, numHashes: nat, hash: V -> Word, x: V, y: V, z: V)
    returns (hasX: bool, hasY: bool, hasZ: bool, commutes: bool)
    requires numHashes == 0 || numBuckets > 0
    ensures hasX && hasY && hasZ && commutes
  {
    var a := new BloomFilter(numBuckets, numHashes, hash);
    a.Record(x);
    ghost var afterX := a.buckets[..];
    a.Record(y);
    RecordedMonotone(afterX, hash(y), hash(x), numHashes);
    var b := new BloomFilter(numBuckets, numHashes, hash);
    b.Record(z);
    var ab := BloomFilter.Union(a, b);
    var ba := BloomFilter.Union(b, a);
    assert ab.Ok? && ba.Ok?;
    UnionContains(a.buckets[..], b.buckets[..], hash(x), numHashes);
    UnionContains(a.buckets[..], b.buckets[..], hash(y), numHashes);
    UnionContains(a.buckets[..], b.buckets[..], hash(z), numHashes);
    hasX := ab.value.Contains(x);
    hasY := ab.value.Contains(y);
    hasZ := ab.value.Contains(z);
    commutes := ab.value.Equals(ba.value);
  }

  /** The intersection of a filter holding x and y with a filter holding y and z
      accepts y, and does not depend on the order of its operands. */
  method IntersectionOfRecorded<V>(numBuckets: nat, numHashes: nat, hash: V -> Word, x: V, y: V, z: V)
    returns (hasY: bool, commutes: bool)
    requires numHashes == 0 || numBuckets > 0
    ensures hasY && commutes
  {
    var a := new BloomFilter(numBuckets, numHashes, hash);
    a.Record(x);
    a.Record(y);
    var b := new BloomFilter(numBuckets, numHashes, hash);
    b.Record(y);
    ghost var afterY := b.buckets[..];
    b.Record(z);
    RecordedMonotone(afterY, hash(z), hash(y), numHashes);
    var ab := BloomFilter.Intersection(a, b);
    var ba := BloomFilter.Intersection(b, a);
    assert ab.Ok? && ba.Ok?;
    IntersectionContains(a.buckets[..], b.buckets[..], hash(y), numHashes);
    hasY := ab.value.Contains(y);
    commutes := ab.value.Equals(ba.value);
  }
}
