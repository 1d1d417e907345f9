/** MinHash sketches and LSH bands (src/graph/fingerprint.rs). */
module MinHash {
  import opened Prelude
  import opened Lexer

  const MINHASH_K := 64
  const LSH_BANDS := 32
  const LSH_ROWS := 2
  const U32_MAX := 0xFFFF_FFFF

  type U32 = n: int | 0 <= n <= U32_MAX witness 0

  /** The hash of a trigram key under a seed, and the hash of a band's bytes. */
  datatype Hashes = Hashes(value: (string, nat) -> U32, band: seq<int> -> int)

  datatype Sketch = Sketch(values: seq<U32>, tokenCount: nat)

  const NUL := '\0'

  function TrigramKey(a: string, b: string, c: string): string { a + [NUL] + b + [NUL] + c }

  /** A key tells its three tokens, in order, apart from all others, when no token holds a NUL. */
  lemma TrigramKeyTells(a: string, b: string, c: string, a': string, b': string, c': string)
    requires NUL !in a && NUL !in b && NUL !in c && NUL !in a' && NUL !in b' && NUL !in c'
    ensures TrigramKey(a, b, c) == TrigramKey(a', b', c') <==> a == a' && b == b' && c == c'
  {
    if TrigramKey(a, b, c) == TrigramKey(a', b', c') {
      assert TrigramKey(a, b, c) == a + [NUL] + (b + [NUL] + c) && TrigramKey(a', b', c') == a' + [NUL] + (b' + [NUL] + c');
      FirstPart(a, b + [NUL] + c, a', b' + [NUL] + c');
      FirstPart(b, c, b', c');
    }
  }

  /** What stands before the first NUL, and what behind it, are told by the whole. */
  lemma FirstPart(a: string, rest: string, a': string, rest': string)
    requires NUL !in a && NUL !in a' && a + [NUL] + rest == a' + [NUL] + rest'
    ensures a == a' && rest == rest'
  {
    var s := a + [NUL] + rest;
    assert s[|a|] == NUL && s[|a'|] == NUL;
    assert forall i :: 0 <= i < |a| ==> s[i] == a[i] && a[i] in a;
    assert forall i :: 0 <= i < |a'| ==> s[i] == a'[i] && a'[i] in a';
    assert |a| == |a'|;
    assert a == s[..|a|] && a' == s[..|a'|] && rest == s[|a| + 1..] && rest' == s[|a'| + 1..];
  }

  function TrigramAt(tokens: seq<string>, i: nat): string
    requires i + 2 < |tokens|
  {
    TrigramKey(tokens[i], tokens[i + 1], tokens[i + 2])
  }

  /** The keys of the first `n` trigrams. */
  function FirstTrigrams(tokens: seq<string>, n: nat): set<string>
    requires n > 0 ==> n + 2 <= |tokens|
  {
    if n == 0 then {} else FirstTrigrams(tokens, n - 1) + {TrigramAt(tokens, n - 1)}
  }

  /** The trigram keys of a token stream. */
  function Trigrams(tokens: seq<string>): set<string> {
    FirstTrigrams(tokens, if |tokens| >= 3 then |tokens| - 2 else 0)
  }

  /** The key set holds exactly the keys of the stream's windows of three. */
  lemma {:induction false} TrigramMembers(tokens: seq<string>, n: nat, k: string)
    requires n > 0 ==> n + 2 <= |tokens|
    ensures k in FirstTrigrams(tokens, n) <==> exists i :: 0 <= i < n && TrigramAt(tokens, i) == k
  {
    if n > 0 {
      TrigramMembers(tokens, n - 1, k);
    }
  }

  predicate WindowAt(tokens: seq<string>, i: nat, k: string) {
    i + 2 < |tokens| && k == TrigramKey(tokens[i], tokens[i + 1], tokens[i + 2])
  }

  /** So the keys of a stream are those of three neighbouring tokens, and there are none of fewer. */
  lemma TrigramsAreWindows(tokens: seq<string>, k: string)
    ensures k in Trigrams(tokens) <==> exists i: nat :: WindowAt(tokens, i, k)
  {
    hide TrigramKey;
    var n := if |tokens| >= 3 then |tokens| - 2 else 0;
    TrigramMembers(tokens, n, k);
    forall i: nat
      ensures WindowAt(tokens, i, k) <==> i < n && TrigramAt(tokens, i) == k
    {
    }
  }

  /** `m` is the minimum of the keys' hashes under `seed`, or the largest word if there are no keys. */
  ghost predicate IsMinimum(h: Hashes, m: U32, keys: set<string>, seed: nat) {
    && (forall k :: k in keys ==> m <= h.value(k, seed))
    && (m == U32_MAX || exists k :: k in keys && m == h.value(k, seed))
  }

  /** The values are, seed by seed, the minima over a set of keys. */
  ghost predicate IsSketchOf(h: Hashes, values: seq<U32>, keys: set<string>) {
    |values| == MINHASH_K && forall seed :: 0 <= seed < MINHASH_K ==> IsMinimum(h, values[seed], keys, seed)
  }

  /** A set of keys has one sketch. */
  lemma SketchUnique(h: Hashes, a: seq<U32>, b: seq<U32>, keys: set<string>)
    requires IsSketchOf(h, a, keys) && IsSketchOf(h, b, keys)
    ensures a == b
  {
    forall seed | 0 <= seed < MINHASH_K
      ensures a[seed] == b[seed]
    {
      assert IsMinimum(h, a[seed], keys, seed) && IsMinimum(h, b[seed], keys, seed);
    }
  }

  /** Lowers every minimum by one key's hashes. */
  method Lower(h: Hashes, minima: seq<U32>, key: string, ghost keys: set<string>) returns (lowered: seq<U32>)
    requires IsSketchOf(h, minima, keys)
    ensures IsSketchOf(h, lowered, keys + {key})
  {
    lowered := minima;
    for seed := 0 to MINHASH_K
      invariant |lowered| == MINHASH_K
      invariant forall i :: seed <= i < MINHASH_K ==> lowered[i] == minima[i]
      invariant forall i :: 0 <= i < seed ==> IsMinimum(h, lowered[i], keys + {key}, i)
    {
      var v := h.value(key, seed);
      assert IsMinimum(h, minima[seed], keys, seed);
      if v < lowered[seed] {
        lowered := lowered[seed := v];
        assert key in keys + {key};
      } else if lowered[seed] != U32_MAX {
        ghost var k :| k in keys && lowered[seed] == h.value(k, seed);
        assert k in keys + {key};
      }
    }
  }

  /** The de-duplicating loop computes the sketch of the set of trigram keys. */
  method OfTokens(h: Hashes, tokens: seq<string>) returns (s: Sketch)
    ensures IsSketchOf(h, s.values, Trigrams(tokens)) && s.tokenCount == |tokens|
  {
    hide IsSketchOf;
    var minima: seq<U32> := seq(MINHASH_K, _ => U32_MAX);
    var seen: set<string> := {};
    EmptySketch(h, minima);
    if |tokens| >= 3 {
      for i := 0 to |tokens| - 2
        invariant seen == FirstTrigrams(tokens, i)
        invariant IsSketchOf(h, minima, seen)
      {
        var key := TrigramAt(tokens, i);
        if key in seen {
          assert seen + {key} == seen;
          continue;
        }
        minima := Lower(h, minima, key, seen);
        seen := seen + {key};
      }
    }
    s := Sketch(minima, |tokens|);
  }

  lemma EmptySketch(h: Hashes, values: seq<U32>)
    requires |values| == MINHASH_K && forall i :: 0 <= i < MINHASH_K ==> values[i] == U32_MAX
    ensures IsSketchOf(h, values, {})
  {
  }

  function Pointwise(a: seq<U32>, b: seq<U32>): seq<U32>
    requires |a| == |b|
  {
    seq(|a|, i requires 0 <= i < |a| => if a[i] <= b[i] then a[i] else b[i])
  }

  /** The sketch of a union of key sets is the pointwise minimum of their sketches. */
  lemma SketchOfUnion(h: Hashes, a: seq<U32>, b: seq<U32>, keysA: set<string>, keysB: set<string>)
    requires IsSketchOf(h, a, keysA) && IsSketchOf(h, b, keysB)
    ensures IsSketchOf(h, Pointwise(a, b), keysA + keysB)
  {
    var m := Pointwise(a, b);
    forall seed | 0 <= seed < MINHASH_K
      ensures IsMinimum(h, m[seed], keysA + keysB, seed)
    {
      assert IsMinimum(h, a[seed], keysA, seed) && IsMinimum(h, b[seed], keysB, seed);
      if m[seed] != U32_MAX {
        if m[seed] == a[seed] {
          var k :| k in keysA && a[seed] == h.value(k, seed);
          assert k in keysA + keysB;
        } else {
          var k :| k in keysB && b[seed] == h.value(k, seed);
          assert k in keysA + keysB;
        }
      }
    }
  }

  /** What `OfTokens` makes of the tokens of a body. */
  ghost predicate IsSketchOfBody(h: Hashes, u: Letters, body: string, s: Sketch) {
    IsSketchOf(h, s.values, Trigrams(Tokens(u, body))) && s.tokenCount == |Tokens(u, body)|
  }

  /**
   A respelled body has the same sketch, token count included, exactly when every identifier right
   behind a number keeps a `$`; then it is in the same buckets.
   */
  lemma RespellingKeepsSketch(h: Hashes, u: Letters, rename: string -> string, body: string, a: Sketch, b: Sketch)
    requires LettersOk(u) && Renames(u, rename)
    requires IsSketchOfBody(h, u, body, a) && IsSketchOfBody(h, u, Respell(u, rename, body), b)
    ensures a == b <==> DollarsStay(u, rename, body)
    ensures |a.values| == |b.values| == MINHASH_K
    ensures DollarsStay(u, rename, body) ==> BandHashes(h, a.values) == BandHashes(h, b.values)
  {
    hide Tokens, Respell, DollarsStay;
    RespellingKeepsTokens(u, rename, body);
    if DollarsStay(u, rename, body) {
      SketchUnique(h, a.values, b.values, Trigrams(Tokens(u, body)));
    }
  }

  // ----- Similarity and bands -----

  /** Equal positions among the first `n`. */
  function EqualCount(a: seq<U32>, b: seq<U32>, n: nat): (c: nat)
    requires n <= |a| && n <= |b|
    ensures c <= n
  {
    if n == 0 then 0 else EqualCount(a, b, n - 1) + if a[n - 1] == b[n - 1] then 1 else 0
  }

  /** Fraction of equal sketch positions. */
  function Similarity(a: Sketch, b: Sketch): real {
    var n := Min(|a.values|, |b.values|);
    if n == 0 then 0.0 else EqualCount(a.values, b.values, n) as real / n as real
  }

  /** The four bytes of a word, most significant first. */
  function BigEndian(v: U32): (bytes: seq<int>)
    ensures |bytes| == 4 && forall i :: 0 <= i < 4 ==> 0 <= bytes[i] < 256
  {
    [v / 0x100_0000, v / 0x1_0000 % 256, v / 256 % 256, v % 256]
  }

  /** The bytes a band hashes: its number, then its rows. */
  function BandBytes(values: seq<U32>, b: nat): seq<int>
    requires |values| == MINHASH_K && b < LSH_BANDS
  {
    [b] + BigEndian(values[b * LSH_ROWS]) + BigEndian(values[b * LSH_ROWS + 1])
  }

  /** The bucket of each band. */
  function BandHashes(h: Hashes, values: seq<U32>): (buckets: seq<int>)
    requires |values| == MINHASH_K
    ensures |buckets| == LSH_BANDS
  {
    seq(LSH_BANDS, b requires 0 <= b < LSH_BANDS => h.band(BandBytes(values, b)))
  }

  predicate BandAgrees(a: seq<U32>, b: seq<U32>, band: nat)
    requires |a| == |b| == MINHASH_K && band < LSH_BANDS
  {
    a[2 * band] == b[2 * band] && a[2 * band + 1] == b[2 * band + 1]
  }

  /** A band's bytes tell its number and both its rows. */
  lemma BandBytesTell(a: seq<U32>, i: nat, b: seq<U32>, j: nat)
    requires |a| == |b| == MINHASH_K && i < LSH_BANDS && j < LSH_BANDS
    ensures BandBytes(a, i) == BandBytes(b, j) <==> i == j && BandAgrees(a, b, i)
  {
    var x, y := BandBytes(a, i), BandBytes(b, j);
    WordRoundTrip(a[2 * i]);
    WordRoundTrip(a[2 * i + 1]);
    WordRoundTrip(b[2 * j]);
    WordRoundTrip(b[2 * j + 1]);
    hide BigEndian, FromBytes;
    assert x[0] == i && x[1..5] == BigEndian(a[2 * i]) && x[5..9] == BigEndian(a[2 * i + 1]);
    assert y[0] == j && y[1..5] == BigEndian(b[2 * j]) && y[5..9] == BigEndian(b[2 * j + 1]);
  }

  /** With a band hash that tells byte strings apart, two sketches share a bucket exactly where both rows of a band agree. */
  lemma BucketsTellBands(h: Hashes, a: seq<U32>, i: nat, b: seq<U32>, j: nat)
    requires |a| == |b| == MINHASH_K && i < LSH_BANDS && j < LSH_BANDS
    requires forall x, y :: h.band(x) == h.band(y) ==> x == y
    ensures BandHashes(h, a)[i] == BandHashes(h, b)[j] <==> i == j && BandAgrees(a, b, i)
  {
    hide BandBytes;
    BandBytesTell(a, i, b, j);
  }

  /** If none of the first bands agrees in both rows, at most one row of each is equal. */
  lemma {:induction false} OneRowPerBand(a: seq<U32>, b: seq<U32>, bands: nat)
    requires |a| == |b| == MINHASH_K && bands <= LSH_BANDS
    requires forall band :: 0 <= band < bands ==> !BandAgrees(a, b, band)
    ensures EqualCount(a, b, 2 * bands) <= bands
  {
    if bands > 0 {
      OneRowPerBand(a, b, bands - 1);
      assert !BandAgrees(a, b, bands - 1);
      assert EqualCount(a, b, 2 * bands) == EqualCount(a, b, 2 * bands - 1) + if a[2 * bands - 1] == b[2 * bands - 1] then 1 else 0;
      assert EqualCount(a, b, 2 * bands - 1) == EqualCount(a, b, 2 * bands - 2) + if a[2 * bands - 2] == b[2 * bands - 2] then 1 else 0;
    }
  }

  /** Two full sketches whose similarity exceeds one half share the bucket of some band. */
  lemma CloseSketchesShareABucket(h: Hashes, a: Sketch, b: Sketch)
    requires |a.values| == |b.values| == MINHASH_K && Similarity(a, b) > 0.5
    ensures exists band :: 0 <= band < LSH_BANDS && BandHashes(h, a.values)[band] == BandHashes(h, b.values)[band]
  {
    assert EqualCount(a.values, b.values, MINHASH_K) as real / MINHASH_K as real > 0.5;
    if forall band :: 0 <= band < LSH_BANDS ==> !BandAgrees(a.values, b.values, band) {
      OneRowPerBand(a.values, b.values, LSH_BANDS);
    }
    var band :| 0 <= band < LSH_BANDS && BandAgrees(a.values, b.values, band);
    assert BandBytes(a.values, band) == BandBytes(b.values, band);
    assert BandHashes(h, a.values)[band] == h.band(BandBytes(a.values, band));
    assert BandHashes(h, b.values)[band] == h.band(BandBytes(b.values, band));
  }

  /** The bound is tight: these two agree in half of their positions and in no band. */
  lemma HalfIsNotEnough(a: seq<U32>, b: seq<U32>)
    requires |a| == |b| == MINHASH_K
    requires forall i :: 0 <= i < MINHASH_K ==> a[i] == 0 && b[i] == i % 2
    ensures Similarity(Sketch(a, 0), Sketch(b, 0)) == 0.5
    ensures forall band :: 0 <= band < LSH_BANDS ==> BandBytes(a, band) != BandBytes(b, band)
  {
    EvenPositions(a, b, LSH_BANDS);
    forall band | 0 <= band < LSH_BANDS
      ensures BandBytes(a, band) != BandBytes(b, band)
    {
      assert BandBytes(a, band)[8] == 0 && BandBytes(b, band)[8] == 1;
    }
  }

  lemma {:induction false} EvenPositions(a: seq<U32>, b: seq<U32>, bands: nat)
    requires |a| == |b| == MINHASH_K && bands <= LSH_BANDS
    requires forall i :: 0 <= i < MINHASH_K ==> a[i] == 0 && b[i] == i % 2
    ensures EqualCount(a, b, 2 * bands) == bands
  {
    if bands > 0 {
      EvenPositions(a, b, bands - 1);
      assert EqualCount(a, b, 2 * bands - 1) == EqualCount(a, b, 2 * bands - 2) + 1;
    }
  }

  // ----- Blobs -----

  function FromBytes(b: seq<int>): U32
    requires |b| == 4 && forall i :: 0 <= i < 4 ==> 0 <= b[i] < 256
  {
    b[0] * 0x100_0000 + b[1] * 0x1_0000 + b[2] * 256 + b[3]
  }

  function ToBlob(values: seq<U32>): (blob: seq<int>)
    ensures |blob| == 4 * |values| && forall i :: 0 <= i < |blob| ==> 0 <= blob[i] < 256
  {
    if values == [] then [] else BigEndian(values[0]) + ToBlob(values[1..])
  }

  /** Whole words of a blob; a shorter tail is dropped. */
  function FromBlob(blob: seq<int>): (values: seq<U32>)
    requires forall i :: 0 <= i < |blob| ==> 0 <= blob[i] < 256
    ensures |values| == |blob| / 4
  {
    if |blob| < 4 then [] else [FromBytes(blob[..4])] + FromBlob(blob[4..])
  }

  lemma WordRoundTrip(v: U32)
    ensures FromBytes(BigEndian(v)) == v
  {
    assert v / 0x1_0000 == v / 0x100_0000 * 256 + v / 0x1_0000 % 256;
    assert v / 256 == v / 0x1_0000 * 256 + v / 256 % 256;
  }

  lemma BytesRoundTrip(b: seq<int>)
    requires |b| == 4 && forall i :: 0 <= i < 4 ==> 0 <= b[i] < 256
    ensures BigEndian(FromBytes(b)) == b
  {
    var v := FromBytes(b);
    assert v / 0x100_0000 == b[0] && v / 0x1_0000 == b[0] * 256 + b[1] && v / 256 == b[0] * 0x1_0000 + b[1] * 256 + b[2];
  }

  /** Reading a stored sketch gives it back. */
  lemma {:induction false} BlobRoundTrip(values: seq<U32>)
    ensures FromBlob(ToBlob(values)) == values
  {
    if values != [] {
      BlobRoundTrip(values[1..]);
      WordRoundTrip(values[0]);
      var blob := ToBlob(values);
      assert blob[..4] == BigEndian(values[0]) && blob[4..] == ToBlob(values[1..]);
    }
  }

  /** Writing what was read gives the blob back up to its last whole word. */
  lemma {:induction false} BlobPrefix(blob: seq<int>)
    requires forall i :: 0 <= i < |blob| ==> 0 <= blob[i] < 256
    ensures ToBlob(FromBlob(blob)) == blob[..|blob| / 4 * 4]
  {
    if |blob| >= 4 {
      var head, rest := blob[..4], blob[4..];
      assert blob == head + rest && |rest| / 4 * 4 == |blob| / 4 * 4 - 4;
      BlobPrefix(rest);
      BytesRoundTrip(head);
      hide FromBytes, BigEndian;
      assert FromBlob(blob) == [FromBytes(head)] + FromBlob(rest);
      ToBlobCons(FromBytes(head), FromBlob(rest));
      hide ToBlob, FromBlob;
      PrefixOfParts(head, rest, |rest| / 4 * 4);
    }
  }

  lemma ToBlobCons(v: U32, values: seq<U32>)
    ensures ToBlob([v] + values) == BigEndian(v) + ToBlob(values)
  {
    hide BigEndian;
    assert ([v] + values)[1..] == values;
  }

  lemma PrefixOfParts(head: seq<int>, rest: seq<int>, n: nat)
    requires n <= |rest|
    ensures head + rest[..n] == (head + rest)[..|head| + n]
  {
  }
}
