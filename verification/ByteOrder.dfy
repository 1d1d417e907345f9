/** Byte strings in the order of sorted maps. */
module ByteOrder {
  type Byte = n: int | 0 <= n < 256 witness 0
  type Bytes = seq<Byte>

  /** Lexicographic order on byte strings, a prefix before its extensions. */
  predicate Less(a: Bytes, b: Bytes) {
    b != [] && (a == [] || a[0] < b[0] || (a[0] == b[0] && Less(a[1..], b[1..])))
  }

  lemma {:induction false} LessTotal(a: Bytes, b: Bytes)
    ensures (Less(a, b) && a != b && !Less(b, a)) || (a == b && !Less(a, b)) || (Less(b, a) && a != b && !Less(a, b))
  {
    if a != [] && b != [] {
      LessTotal(a[1..], b[1..]);
      assert a == [a[0]] + a[1..] && b == [b[0]] + b[1..];
    }
  }

  lemma {:induction false} LessTransitive(a: Bytes, b: Bytes, c: Bytes)
    requires Less(a, b) && Less(b, c)
    ensures Less(a, c)
  {
    if a != [] && a[0] == b[0] && b[0] == c[0] {
      LessTransitive(a[1..], b[1..], c[1..]);
    }
  }

  /** Up to `n` the strings agree; there the first one ends, or has the smaller byte. */
  ghost predicate FirstDifference(a: Bytes, b: Bytes, n: nat) {
    && n <= |a| && n < |b| && a[..n] == b[..n]
    && (n == |a| || a[n] < b[n])
  }

  /** One string is less than another exactly when it ends first or has the smaller byte where they first differ. */
  lemma {:induction false} LessIsLexicographic(a: Bytes, b: Bytes)
    ensures Less(a, b) <==> exists n: nat :: FirstDifference(a, b, n)
  {
    if a != [] && b != [] && a[0] == b[0] {
      var a', b' := a[1..], b[1..];
      LessIsLexicographic(a', b');
      if n: nat :| FirstDifference(a', b', n) {
        assert a[..n + 1] == [a[0]] + a'[..n] && b[..n + 1] == [b[0]] + b'[..n];
        assert FirstDifference(a, b, n + 1);
      }
      if n: nat :| FirstDifference(a, b, n) {
        assert n > 0;
        assert a[..n][1..] == a'[..n - 1] && b[..n][1..] == b'[..n - 1];
        assert FirstDifference(a', b', n - 1);
      }
    } else if a != [] && b != [] && a[0] < b[0] {
      assert FirstDifference(a, b, 0);
    } else if a == [] && b != [] {
      assert FirstDifference(a, b, 0);
    } else {
      forall n: nat
        ensures !FirstDifference(a, b, n)
      {
        assert 0 < n <= |a| && n <= |b| ==> a[..n][0] == a[0] && b[..n][0] == b[0];
      }
    }
  }
}
