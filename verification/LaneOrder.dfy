/** In what order a lane lists its excerpts (`merge_admission_range`, src/graph/agent.rs). */
module LaneOrder {
  import opened Prelude
  import opened SourceRanges

  /** An excerpt without the ids credited to it. */
  function Outline(r: SourceRange): SourceRange { r.(nodeIds := []) }

  function Outlines(rs: seq<SourceRange>): (os: seq<SourceRange>)
    ensures |os| == |rs|
  {
    seq(|rs|, i requires 0 <= i < |rs| => Outline(rs[i]))
  }

  lemma OutlinesConcat(a: seq<SourceRange>, b: seq<SourceRange>)
    ensures Outlines(a + b) == Outlines(a) + Outlines(b)
  {
  }

  lemma OutlinesSpan(rs: seq<SourceRange>, r: SourceRange)
    ensures HasSpan(Outlines(rs), r) <==> HasSpan(rs, r)
  {
    if HasSpan(rs, r) {
      var i :| 0 <= i < |rs| && SameSpan(rs[i], r);
      assert SameSpan(Outlines(rs)[i], r);
    }
  }

  /** Merging leaves every excerpt in its place, and an excerpt with new bounds comes last. */
  lemma {:induction false} MergeKeepsPlaces(ranges: seq<SourceRange>, incoming: SourceRange)
    ensures Outlines(MergeAdmissionRange(ranges, incoming)) ==
            if HasSpan(ranges, incoming) then Outlines(ranges) else Outlines(ranges) + [Outline(incoming)]
  {
    hide UnionIds;
    if ranges != [] {
      var r, rest := ranges[0], ranges[1..];
      assert ranges == [r] + rest;
      HasSpanCons(r, rest, incoming);
      OutlinesConcat([r], rest);
      if SameSpan(r, incoming) {
        OutlinesConcat([r.(nodeIds := UnionIds(r.nodeIds, incoming.nodeIds))], rest);
      } else {
        MergeKeepsPlaces(rest, incoming);
        OutlinesConcat([r], MergeAdmissionRange(rest, incoming));
      }
    }
  }

  /** `front`, and behind it the first of each further span in `more`. */
  function Joined(front: seq<SourceRange>, more: seq<SourceRange>): seq<SourceRange> {
    if more == [] then front
    else
      var most, last := Joined(front, more[..|more| - 1]), more[|more| - 1];
      if HasSpan(most, last) then most else most + [Outline(last)]
  }

  lemma JoinedSnoc(front: seq<SourceRange>, more: seq<SourceRange>, r: SourceRange)
    ensures Joined(front, more + [r]) ==
            if HasSpan(Joined(front, more), r) then Joined(front, more) else Joined(front, more) + [Outline(r)]
  {
    assert (more + [r])[..|more|] == more;
  }

  lemma {:induction false} JoinedConcat(front: seq<SourceRange>, a: seq<SourceRange>, b: seq<SourceRange>)
    ensures Joined(Joined(front, a), b) == Joined(front, a + b)
  {
    hide HasSpan;
    if b == [] {
      assert a + b == a;
    } else {
      var k := |b| - 1;
      assert a + b == (a + b[..k]) + [b[k]] && b == b[..k] + [b[k]];
      JoinedConcat(front, a, b[..k]);
      JoinedSnoc(front, a + b[..k], b[k]);
      JoinedSnoc(Joined(front, a), b[..k], b[k]);
    }
  }

  lemma JoinedOne(front: seq<SourceRange>, r: SourceRange)
    ensures Joined(front, [r]) == if HasSpan(front, r) then front else front + [Outline(r)]
  {
    JoinedSnoc(front, [], r);
    assert [] + [r] == [r];
  }

  /** Adding an excerpt twice in a row is adding it once. */
  lemma JoinedTwice(front: seq<SourceRange>, r: SourceRange)
    ensures Joined(front, [r, r]) == Joined(front, [r])
  {
    assert [] + [r] == [r] && [r] + [r] == [r, r];
    JoinedSnoc(front, [], r);
    JoinedSnoc(front, [r], r);
    var once := Joined(front, [r]);
    if !HasSpan(front, r) {
      assert SameSpan(once[|front|], r);
    }
  }

  /** A lane lists `all`: each span once, where it first comes up, in the form it first has. */
  ghost predicate Lists(rs: seq<SourceRange>, all: seq<SourceRange>) { Outlines(rs) == Joined([], all) }

  /** No earlier excerpt has the bounds of the one at `k`. */
  predicate FirstAt(all: seq<SourceRange>, k: nat) {
    k < |all| && forall j :: 0 <= j < k ==> !SameSpan(all[j], all[k])
  }

  /** `places` are the positions in `all` where each span first comes up. */
  ghost predicate PlacesOf(places: seq<nat>, all: seq<SourceRange>) {
    && (forall i :: 0 <= i < |places| ==> FirstAt(all, places[i]))
    && (forall i, j :: 0 <= i < j < |places| ==> places[i] < places[j])
    && (forall k: nat :: FirstAt(all, k) ==> k in places)
  }

  lemma FirstAtPrefix(all: seq<SourceRange>, r: SourceRange)
    ensures forall k: nat :: k < |all| ==> (FirstAt(all + [r], k) <==> FirstAt(all, k))
    ensures FirstAt(all + [r], |all|) <==> !HasSpan(all, r)
  {
    hide SameSpan;
    assert (all + [r])[|all|] == r;
    forall k: nat | k < |all|
      ensures FirstAt(all + [r], k) <==> FirstAt(all, k)
    {
      assert forall j :: 0 <= j <= k ==> (all + [r])[j] == all[j];
    }
    assert forall j :: 0 <= j < |all| ==> (all + [r])[j] == all[j];
    if HasSpan(all, r) {
      var i :| 0 <= i < |all| && SameSpan(all[i], r);
      assert SameSpan((all + [r])[i], (all + [r])[|all|]);
    }
  }

  lemma {:induction false} ListingSpans(all: seq<SourceRange>)
    ensures forall r :: HasSpan(Joined([], all), r) <==> HasSpan(all, r)
  {
    if all != [] {
      var front, last := all[..|all| - 1], all[|all| - 1];
      assert all == front + [last];
      ListingSpans(front);
      JoinedSnoc([], front, last);
      hide HasSpan, SameSpan, Joined, Outline;
      var listed := Joined([], front);
      forall r
        ensures HasSpan(Joined([], all), r) <==> HasSpan(all, r)
      {
        SpanSnoc(front, last, r);
        SpanSnoc(listed, Outline(last), r);
        SpanCarries(listed, last, r);
      }
    }
  }

  lemma SpanCarries(rs: seq<SourceRange>, q: SourceRange, r: SourceRange)
    ensures SameSpan(q, r) ==> (HasSpan(rs, q) <==> HasSpan(rs, r))
    ensures SameSpan(Outline(q), r) <==> SameSpan(q, r)
  {
    if SameSpan(q, r) && HasSpan(rs, q) {
      var i :| 0 <= i < |rs| && SameSpan(rs[i], q);
      assert SameSpan(rs[i], r);
    }
    if SameSpan(q, r) && HasSpan(rs, r) {
      var i :| 0 <= i < |rs| && SameSpan(rs[i], r);
      assert SameSpan(rs[i], q);
    }
  }

  /** What a listing is, told by positions: the first excerpt of each span, in order. */
  lemma {:induction false} ListingIs(all: seq<SourceRange>) returns (places: seq<nat>)
    ensures PlacesOf(places, all) && AtPlaces(Joined([], all), places, all)
    ensures all != [] ==> places != [] && places[0] == 0
  {
    places := [];
    NothingListed();
    if all != [] {
      var k := |all| - 1;
      var before := ListingIs(all[..k]);
      assert all == all[..k] + [all[k]];
      hide HasSpan, PlacesOf, Outline, Joined, AtPlaces;
      JoinedSnoc([], all[..k], all[k]);
      ListingSpans(all[..k]);
      PlacesSnoc(before, all[..k], all[k]);
      AtPlacesSnoc(Joined([], all[..k]), before, all[..k], all[k]);
      places := if HasSpan(all[..k], all[k]) then before else before + [k];
      ZeroIsFirst(places, all);
    }
  }

  predicate AtPlaces(listed: seq<SourceRange>, places: seq<nat>, all: seq<SourceRange>) {
    |listed| == |places| && forall i :: 0 <= i < |places| ==> places[i] < |all| && listed[i] == Outline(all[places[i]])
  }

  lemma AtPlacesSnoc(listed: seq<SourceRange>, places: seq<nat>, all: seq<SourceRange>, r: SourceRange)
    requires AtPlaces(listed, places, all)
    ensures AtPlaces(listed, places, all + [r]) && AtPlaces(listed + [Outline(r)], places + [|all|], all + [r])
  {
  }

  lemma ZeroIsFirst(places: seq<nat>, all: seq<SourceRange>)
    requires PlacesOf(places, all) && all != []
    ensures places != [] && places[0] == 0
  {
    assert FirstAt(all, 0);
    var i :| 0 <= i < |places| && places[i] == 0;
  }

  lemma NothingListed()
    ensures Joined([], []) == [] && PlacesOf([], [])
    ensures forall r :: !HasSpan([], r)
  {
  }

  lemma PlacesSnoc(before: seq<nat>, front: seq<SourceRange>, last: SourceRange)
    requires PlacesOf(before, front)
    ensures PlacesOf(if HasSpan(front, last) then before else before + [|front|], front + [last])
  {
    hide FirstAt, HasSpan;
    FirstAtPrefix(front, last);
    var k := |front|;
    assert forall i: nat :: FirstAt(front, i) ==> i < k by { FirstAtInside(front); }
    assert forall i: nat :: FirstAt(front + [last], i) ==> i <= k by { FirstAtInside(front + [last]); }
    var after := if HasSpan(front, last) then before else before + [k];
    assert forall i: nat :: i in before ==> i in after;
    if !HasSpan(front, last) {
      assert after[|before|] == k;
    }
  }

  lemma FirstAtInside(all: seq<SourceRange>)
    ensures forall i: nat :: FirstAt(all, i) ==> i < |all|
  {
  }

  lemma SpanSnoc(rs: seq<SourceRange>, r: SourceRange, q: SourceRange)
    ensures HasSpan(rs + [r], q) <==> HasSpan(rs, q) || SameSpan(r, q)
  {
    hide SameSpan;
    assert (rs + [r])[|rs|] == r;
    if HasSpan(rs, q) {
      var i :| 0 <= i < |rs| && SameSpan(rs[i], q);
      assert (rs + [r])[i] == rs[i];
    }
  }

  /** The first excerpt of a lane is the first one put there. */
  lemma FirstIsFirst(rs: seq<SourceRange>, all: seq<SourceRange>)
    requires Lists(rs, all)
    ensures rs == [] <==> all == []
    ensures all != [] ==> Outline(rs[0]) == Outline(all[0])
  {
    var places := ListingIs(all);
    if all != [] {
      assert Outlines(rs)[0] == Outline(all[places[0]]);
    }
  }
}
