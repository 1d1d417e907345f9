/** Ascending listings of a map's entries: what a range of a sorted map yields. */
module SortedEntries {
  import opened ByteOrder

  /** Entries in strictly ascending key order. */
  ghost predicate Ascending<V>(s: seq<(Bytes, V)>) {
    forall i, j :: 0 <= i < j < |s| ==> Less(s[i].0, s[j].0)
  }

  predicate InRange(k: Bytes, lower: Bytes, upper: Bytes) { !Less(k, lower) && Less(k, upper) }

  /** A range takes its lower bound and leaves its upper one out. */
  lemma RangeIsHalfOpen(k: Bytes, lower: Bytes, upper: Bytes)
    ensures InRange(k, lower, upper) <==> (k == lower || Less(lower, k)) && Less(k, upper)
    ensures !InRange(upper, lower, upper)
  {
    LessTotal(k, lower);
    LessTotal(upper, upper);
  }

  /** `s` lists exactly the entries of `m` with `lower <= key < upper`, ascending. */
  ghost predicate Lists<V>(s: seq<(Bytes, V)>, m: map<Bytes, V>, lower: Bytes, upper: Bytes) {
    && Ascending(s)
    && (forall i :: 0 <= i < |s| ==> s[i].0 in m && m[s[i].0] == s[i].1 && InRange(s[i].0, lower, upper))
    && (forall k :: k in m && InRange(k, lower, upper) ==> exists i :: 0 <= i < |s| && s[i].0 == k)
  }

  lemma SameHead<V>(s: seq<(Bytes, V)>, t: seq<(Bytes, V)>)
    requires Ascending(s) && Ascending(t) && s != [] && t != []
    requires s[0] in t && t[0] in s
    ensures s[0] == t[0]
  {
    LessTotal(s[0].0, t[0].0);
    var i :| 0 <= i < |t| && t[i] == s[0];
    var j :| 0 <= j < |s| && s[j] == t[0];
  }

  lemma TailMembers<V>(s: seq<(Bytes, V)>)
    requires Ascending(s) && s != []
    ensures Ascending(s[1..])
    ensures forall e :: e in s[1..] <==> e in s && e != s[0]
  {
    forall e
      ensures e in s[1..] <==> e in s && e != s[0]
    {
      if e in s[1..] {
        var i :| 0 <= i < |s[1..]| && s[1..][i] == e;
        assert Less(s[0].0, s[i + 1].0);
        LessTotal(s[0].0, s[i + 1].0);
      }
      assert s == [s[0]] + s[1..];
    }
  }

  /** Ascending listings with the same entries are the same. */
  lemma {:induction false} AscendingUnique<V>(s: seq<(Bytes, V)>, t: seq<(Bytes, V)>)
    requires Ascending(s) && Ascending(t) && forall e :: e in s <==> e in t
    ensures s == t
  {
    if s == [] {
      assert forall i :: 0 <= i < |t| ==> t[i] in t;
    } else {
      assert s[0] in s && s[0] in t && t[0] in t && t[0] in s;
      SameHead(s, t);
      TailMembers(s);
      TailMembers(t);
      AscendingUnique(s[1..], t[1..]);
    }
  }

  /** The entries of a map's listing are those of the map in range. */
  lemma ListedEntries<V>(s: seq<(Bytes, V)>, m: map<Bytes, V>, lower: Bytes, upper: Bytes)
    requires Lists(s, m, lower, upper)
    ensures forall e: (Bytes, V) :: e in s <==> e.0 in m && m[e.0] == e.1 && InRange(e.0, lower, upper)
  {
    forall e: (Bytes, V) | e.0 in m && m[e.0] == e.1 && InRange(e.0, lower, upper)
      ensures e in s
    {
      var i :| 0 <= i < |s| && s[i].0 == e.0;
      assert s[i] == e;
    }
  }

  /** A map has only one ascending listing of a range. */
  lemma ListingUnique<V>(s: seq<(Bytes, V)>, t: seq<(Bytes, V)>, m: map<Bytes, V>, lower: Bytes, upper: Bytes)
    requires Lists(s, m, lower, upper) && Lists(t, m, lower, upper)
    ensures s == t
  {
    ListedEntries(s, m, lower, upper);
    ListedEntries(t, m, lower, upper);
    AscendingUnique(s, t);
  }

  /** The place of a new key in an ascending listing. */
  method Place<V>(s: seq<(Bytes, V)>, k: Bytes, v: V) returns (r: seq<(Bytes, V)>)
    requires Ascending(s) && forall i :: 0 <= i < |s| ==> s[i].0 != k
    ensures Ascending(r)
    ensures forall e :: e in r <==> e in s || e == (k, v)
  {
    var n := 0;
    while n < |s| && Less(s[n].0, k)
      invariant 0 <= n <= |s|
      invariant forall i :: 0 <= i < n ==> Less(s[i].0, k)
    {
      n := n + 1;
    }
    r := s[..n] + [(k, v)] + s[n..];
    if n < |s| {
      LessTotal(s[n].0, k);
      forall i | n <= i < |s|
        ensures Less(k, s[i].0)
      {
        if n < i {
          LessTransitive(k, s[n].0, s[i].0);
        }
      }
    }
    forall e
      ensures e in r <==> e in s || e == (k, v)
    {
      assert s == s[..n] + s[n..];
    }
  }

  /** The ascending listing of a range of a map: `BTreeMap::range`, `Db::range`. */
  method Range<V>(m: map<Bytes, V>, lower: Bytes, upper: Bytes) returns (s: seq<(Bytes, V)>)
    ensures Lists(s, m, lower, upper)
  {
    s := [];
    var todo := m.Keys;
    while todo != {}
      invariant todo <= m.Keys
      invariant Ascending(s)
      invariant forall e :: e in s ==> e.0 in m && m[e.0] == e.1 && e.0 !in todo && InRange(e.0, lower, upper)
      invariant forall k :: k in m && k !in todo && InRange(k, lower, upper) ==> (k, m[k]) in s
      decreases |todo|
    {
      var k :| k in todo;
      todo := todo - {k};
      if InRange(k, lower, upper) {
        s := Place(s, k, m[k]);
      }
    }
    forall k | k in m && InRange(k, lower, upper)
      ensures exists i :: 0 <= i < |s| && s[i].0 == k
    {
      assert (k, m[k]) in s;
      var i :| 0 <= i < |s| && s[i] == (k, m[k]);
    }
    assert forall i :: 0 <= i < |s| ==> s[i] in s;
  }
}
