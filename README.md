# Bloom filter and reservoir sampler, modelled in Dafny

This project models the two in-memory data structures of `learn_algo`:

- **`BloomFilter`** (`learn/bloom_filter.h`) keeps a fixed-length vector of bool
  buckets and a hash count. `record` sets the buckets of the value's probes.
  `contains` checks the same buckets. `operator==` compares hash counts and
  buckets. `filterUnion` and `filterIntersection` check that the shapes match and
  then combine the buckets with OR or AND.
- **`ReservoirSampling`** (`learn/reservoir_sampling.h`) is Algorithm R. It keeps
  the capacity, the count of values processed and the reservoir. `process` draws
  `r` in `[0, numProcessed]`. It keeps the value when `r < numToSample`: it appends
  while the reservoir is not full and overwrites slot `r` once it is. It counts
  the value either way.

Layout:

- `bloom_buckets.dfy`, module `BloomBuckets`: the bucket vector as a value. It
  defines the probe positions, `Recorded` (the buckets after `record`),
  `AllProbesSet` (the answer of `contains`), `CountTrue`, `BucketUnion` and
  `BucketIntersection`, and proves every filter property about them.
- `bloom_filter.dfy`, module `Bloom`: the class `BloomFilter<V>`. Its buckets are
  an `array<bool>` that `Record` updates in place. Each method is specified by
  the functions of `BloomBuckets`. Three client methods replay the scenarios of
  the unit tests and prove their outcome from the class contracts alone.
- `reservoir_sampling.dfy`, module `Reservoir`: `Step` (one `process` call on
  the reservoir) and `Sample` (a whole stream). It also holds the class
  `ReservoirSampling<V>`, whose `Process` updates the fields in place. The class
  invariant `Valid()` ties the reservoir to `Sample` of the values and draws seen
  so far, which are kept as ghost fields. A client method replays the
  initial-fill scenario of the unit tests.

The accessors are fields of the classes. `numHashes()` is the constant
`numHashes`, and `numBuckets()` is `buckets.Length`. `numToSample()`,
`numProcessed()` and `samples()` are the fields of the same names.
`numBucketsPopulated()` is the function `Populated`.

Hashing follows the code. The hash `h` of a value is split into
`hashA = h << 4` (truncated to 64 bits) and `hashB = h >> 4`. The shift is
`sizeof(std::size_t) / 2`, which is 4 bits on a 64-bit target, not a split into
two 32-bit halves. The n-th probe is
`(hashA + n * hashB) mod 2^64 mod numBuckets`. No property proved here depends on
this arithmetic: the proofs use only that a probe is a valid bucket index.
The hash of the value type is supplied to the constructor as a function
`V -> Word`. `Union` and `Intersection` require both operands to use the same
hash function. In the source the operands share one C++ type, which fixes this.

`record` and `contains` compute `% buckets_.size()`, which is undefined for an
empty bucket vector. That happens only when the loop runs at least once. So the
model requires `numHashes == 0 || buckets.Length > 0` and nothing more.

The sampler accepts a capacity of 0, as the code does; no value is then ever
kept. The random draw is an argument `r` of `Process` with `r <= numProcessed`.

## Model

| member | source | states |
|---|---|---|
| `BloomBuckets.HashA` | learn/bloom_filter.h:83 | `hash << 4` truncated to 64 bits: its 4 low bits are clear and the rest are the low 60 bits of the hash |
| `BloomBuckets.HashB` | learn/bloom_filter.h:84 | `hash >> 4`: the hash with its 4 low bits dropped, i.e. the quotient of the hash by 16 |
| `BloomBuckets.Probe` | learn/bloom_filter.h:58 | the n-th probe of a hash is a valid bucket index of a non-empty bucket vector |
| `BloomBuckets.Recorded` | learn/bloom_filter.h:57-60 | recording never changes the number of buckets |
| `BloomBuckets.RecordAll` | learn/bloom_filter.h:54-61 | recording a sequence of values never changes the number of buckets |
| `BloomBuckets.CountTrue` | learn/bloom_filter.h:39 | the populated count is at most the bucket count, and it is 0 exactly when every bucket is clear |
| `BloomBuckets.RecordedAt` | learn/bloom_filter.h:57-60 | after `record`, a bucket is set iff it was set before or one of the `numHashes` probes hit it |
| `BloomBuckets.RecordedContains` | learn/bloom_filter.h:54-76 | no false negatives: after `record(v)`, `contains(v)` is true |
| `BloomBuckets.RecordedMonotone` | learn/bloom_filter.h:57-60 | `record` never clears a bucket, so every value `contains` accepted before is still accepted |
| `BloomBuckets.RecordedIdempotent` | learn/bloom_filter.h:54-61 | recording the same value twice gives the same buckets as recording it once |
| `BloomBuckets.RecordedCommute` | learn/bloom_filter.h:54-61 | recording a then b gives the same buckets as recording b then a |
| `BloomBuckets.RecordAllAt` | learn/bloom_filter.h:54-61 | after recording a stream, a bucket is set iff it was set before or a probe of some recorded value hit it |
| `BloomBuckets.RecordAllOrderFree` | test/test_bloom_filter.cc:96-117 | two streams with the same values, in any order and with any repetitions, give the same buckets |
| `BloomBuckets.CountTrueSet` | learn/bloom_filter.h:59 | setting one bucket raises the populated count by 1 if it was clear and by 0 otherwise |
| `BloomBuckets.RecordedPopulation` | learn/bloom_filter.h:57-60 | `record` never lowers the populated count and raises it by at most `numHashes` |
| `BloomBuckets.UnionContains` | learn/bloom_filter.h:105-111 | the bucket-wise OR is commutative, and it accepts every value that either operand accepts |
| `BloomBuckets.IntersectionContains` | learn/bloom_filter.h:125-131 | the bucket-wise AND is commutative, and it accepts a value iff both operands accept it |
| `BloomBuckets.RecordedUnion` | learn/bloom_filter.h:105-111 | recording into one operand and then taking the union equals recording into the union |
| `Bloom.BloomFilter.constructor` | learn/bloom_filter.h:30-31 | a new filter has the given bucket count and hash count, all buckets clear, and a populated count of 0 |
| `Bloom.BloomFilter.Populated` | learn/bloom_filter.h:39 | `numBucketsPopulated() <= numBuckets()`, and it is 0 iff no bucket is set |
| `Bloom.BloomFilter.Record` | learn/bloom_filter.h:54-61 | the buckets become `Recorded` of the old buckets; the value is then contained; no bucket is cleared; the populated count grows by at most `numHashes` |
| `Bloom.BloomFilter.Contains` | learn/bloom_filter.h:63-76 | returns true iff every one of the `numHashes` probes finds its bucket set |
| `Bloom.BloomFilter.Equals` | learn/bloom_filter.h:90-92 | equal iff the hash counts are equal and the bucket vectors have equal length and equal elements |
| `Bloom.BloomFilter.EqualsIsEquivalence` | learn/bloom_filter.h:90-92 | `operator==` is reflexive, symmetric and transitive, and filters with different hash counts or bucket counts are unequal |
| `Bloom.BloomFilter.Union` | learn/bloom_filter.h:94-112 | fails with a hash-count error, or else a bucket-count error, exactly when the shapes differ; otherwise it returns a new filter of the same shape whose buckets are the element-wise OR |
| `Bloom.BloomFilter.Intersection` | learn/bloom_filter.h:114-132 | the same errors as `Union`; otherwise it returns a new filter of the same shape whose buckets are the element-wise AND |
| `Bloom.RecordBothOrders` | test/test_bloom_filter.cc:96-117 | two new filters of one shape that record x, y and y, x are equal |
| `Bloom.UnionOfRecorded` | test/test_bloom_filter.cc:119-134 | the union of a filter holding x and y with one holding z contains x, y and z, and the union in the other operand order is equal |
| `Bloom.IntersectionOfRecorded` | test/test_bloom_filter.cc:142-156 | the intersection of a filter holding x and y with one holding y and z contains y, and the intersection in the other operand order is equal |
| `Reservoir.Step` | learn/reservoir_sampling.h:36-52 | one `process` call keeps the reservoir at `min(numProcessed, numToSample)` elements; the overwrite of slot `r` is always in bounds |
| `Reservoir.Sample` | learn/reservoir_sampling.h:36-52 | after any stream of values and valid draws, the reservoir has `min(numProcessed, numToSample)` elements |
| `Reservoir.SampleWhileFilling` | learn/reservoir_sampling.h:42-46 | while at most `numToSample` values have been processed, the reservoir is the stream in arrival order |
| `Reservoir.OverwriteMultiset` | learn/reservoir_sampling.h:43 | overwriting a slot removes that slot's value from the reservoir and adds the new one |
| `Reservoir.SampleFromStream` | learn/reservoir_sampling.h:41-47 | every sample is a processed value, and the reservoir is a sub-multiset of the stream |
| `Reservoir.ReservoirSampling.constructor` | learn/reservoir_sampling.h:14-17 | a new sampler has the given capacity, nothing processed and an empty reservoir |
| `Reservoir.FirstValuesKept` | test/test_reservoir_sampling.cc:34-51 | a sampler of capacity 3 that processes 4, 5, 12 holds exactly [4, 5, 12] and counts 3, for every possible draw |
| `Reservoir.ReservoirSampling.Process` | learn/reservoir_sampling.h:36-52 | returns true iff `r < numToSample`; the count rises by exactly one; when rejected the reservoir is unchanged; when accepted it appends while not full and overwrites only slot `r` (in bounds) once full; the size invariant, the arrival-order prefix and the sub-multiset property hold afterwards; the capacity never changes |

## Left out

- `BloomFilter::make` (learn/bloom_filter.h:20-28) sizes the filter with floating-point `log` and `ceil`. Floating point is not modelled, so the expected 7 hashes and 3030 buckets are not modelled either.
- `std::hash` is not modelled. It becomes the function given to the constructor. Facts that depend on its values are not modelled: how many buckets a particular value populates, and which values the filter rejects.
- `std::mt19937` and `std::uniform_int_distribution` are not modelled. The draw is an argument of `Process`. The narrowing of `numProcessed()` to `int` in the distribution bounds is not modelled.
- The sampler constructor's random-engine argument is not modelled; the draw is an argument of `Process` instead.
- Allocation and length failures of the two constructors are not modelled. `samples_.reserve(num_to_sample)` and `buckets_(num_buckets, false)` can throw `std::length_error` or `std::bad_alloc`; both Dafny constructors accept every natural number.
- Statistical guarantees are not provable functional properties and are not modelled. These are the false-positive rate of the filter and the `k/N` retention probability of the sampler.
- The `std::size_t` bounds on `numHashes`, `numBuckets` and `numProcessed` are not modelled. These are unbounded naturals, so a loop counter or the processed count never wraps. Only the probe arithmetic is reduced modulo 2^64.
- The error messages of the exceptions are not modelled. They become the two `ShapeError` values; the intersection's messages say "union" in the source.
- Copying and assigning filters and samplers are not modelled. The model keeps each object's identity.
