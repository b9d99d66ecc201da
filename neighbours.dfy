/** The two neighbour queries `DrawMap` runs over the catalog's map
    coordinates: the five nearest samples to the hovered one, kept in a
    sorted five-slot list, and the single most similar sample for the
    context menu. Coordinates are reals; float rounding is not modelled. */
module Neighbours {
  import opened CArith

  /** Slots in the nearest-neighbour list. */
  const SLOTS: nat := 5
  /** Samples further apart than this on screen are skipped. */
  const SCREEN_WINDOW: int := 500
  /** Only samples closer than this squared distance are listed. */
  const CUTOFF: real := 0.5

  /** The map position of a sample and the screen column it was drawn at. */
  datatype Point = Point(zcr: real, rms: real, screenX: int)

  /** One entry of the list: a sample index and its squared distance. */
  datatype Slot = Slot(id: int, dist: real)

  /** An empty slot: no index, and the largest finite distance. */
  const Unused: Slot := Slot(-1, FLT_MAX)

  function SqDist(a: Point, b: Point): (r: real)
    ensures r >= 0.0
  {
    (a.zcr - b.zcr) * (a.zcr - b.zcr) + (a.rms - b.rms) * (a.rms - b.rms)
  }

  function Abs(x: int): int {
    if x < 0 then -x else x
  }

  /** Sample `i` qualifies for the hovered sample `focus`'s list. */
  predicate Candidate(points: seq<Point>, focus: nat, i: nat)
    requires focus < |points| && i < |points|
  {
    && i != focus
    && Abs(points[focus].screenX - points[i].screenX) <= SCREEN_WINDOW
    && SqDist(points[focus], points[i]) < CUTOFF
  }

  /** The first slot from `k` on whose distance exceeds `d`, or `|list|`. */
  function FirstAbove(list: seq<Slot>, d: real, k: nat): (r: nat)
    requires k <= |list|
    ensures k <= r <= |list|
    ensures forall m :: k <= m < r ==> !(d < list[m].dist)
    ensures r < |list| ==> d < list[r].dist
    decreases |list| - k
  {
    if k == |list| then k
    else if d < list[k].dist then k
    else FirstAbove(list, d, k + 1)
  }

  /** The insertion of the inner loop: `s` goes before the first slot with a
      larger distance, the slots behind it move down one and the last one
      drops out; with no such slot the list is unchanged. */
  function Insert(list: seq<Slot>, s: Slot): (r: seq<Slot>)
    ensures |r| == |list|
  {
    var k := FirstAbove(list, s.dist, 0);
    seq(|list|, m requires 0 <= m < |list| =>
      if m < k then list[m] else if m == k then s else list[m - 1])
  }

  /** The list after scanning samples `0 .. n - 1`. */
  function Nearest(points: seq<Point>, focus: nat, n: nat): (r: seq<Slot>)
    requires focus < |points| && n <= |points|
    ensures |r| == SLOTS
  {
    if n == 0 then seq(SLOTS, _ => Unused)
    else
      var l := Nearest(points, focus, n - 1);
      if Candidate(points, focus, n - 1) then Insert(l, Slot(n - 1, SqDist(points[focus], points[n - 1])))
      else l
  }

  /** Slot `a` ranks before slot `b`: a smaller distance, or the same
      distance and an earlier index. */
  predicate Before(a: Slot, b: Slot) {
    a.dist < b.dist || (a.dist == b.dist && a.id < b.id)
  }

  /** A listed entry: a qualifying sample among the first `n`, with its distance. */
  predicate Entry(points: seq<Point>, focus: nat, n: nat, s: Slot)
    requires focus < |points| && n <= |points|
  {
    0 <= s.id < n && Candidate(points, focus, s.id) && s.dist == SqDist(points[focus], points[s.id])
  }

  /** The list's shape: every slot is unused or an entry, used slots come
      first in strictly increasing rank, and distances never fall. */
  predicate Ranked(points: seq<Point>, focus: nat, n: nat, l: seq<Slot>)
    requires focus < |points| && n <= |points|
  {
    && |l| == SLOTS
    && (forall m :: 0 <= m < SLOTS ==> l[m] == Unused || Entry(points, focus, n, l[m]))
    && (forall i, j :: 0 <= i < j < SLOTS && l[j] != Unused ==> l[i] != Unused && Before(l[i], l[j]))
    && (forall i, j :: 0 <= i < j < SLOTS ==> l[i].dist <= l[j].dist)
  }

  function Ids(l: seq<Slot>): set<int> {
    set m | 0 <= m < |l| :: l[m].id
  }

  /** Every qualifying sample among the first `n` is listed, or the list is
      full and its last entry is no further away. */
  predicate Complete(points: seq<Point>, focus: nat, n: nat, l: seq<Slot>)
    requires focus < |points| && n <= |points| && |l| == SLOTS
  {
    forall i :: 0 <= i < n && Candidate(points, focus, i) ==>
      i in Ids(l) || (l[SLOTS - 1] != Unused && l[SLOTS - 1].dist <= SqDist(points[focus], points[i]))
  }

  lemma RankedGrows(points: seq<Point>, focus: nat, n: nat, l: seq<Slot>)
    requires focus < |points| && n < |points|
    requires Ranked(points, focus, n, l)
    ensures Ranked(points, focus, n + 1, l)
  {
  }

  /** Inserting the entry for sample `n` keeps the list ranked. */
  lemma InsertRanked(points: seq<Point>, focus: nat, n: nat, l: seq<Slot>)
    requires focus < |points| && n < |points|
    requires Ranked(points, focus, n, l) && Candidate(points, focus, n)
    ensures Ranked(points, focus, n + 1, Insert(l, Slot(n, SqDist(points[focus], points[n]))))
  {
    RankedGrows(points, focus, n, l);
    InsertEntries(points, focus, n, l);
    InsertOrdered(points, focus, n, l);
    InsertSorted(l, Slot(n, SqDist(points[focus], points[n])));
  }

  /** Every slot after the insertion is unused or an entry. */
  lemma InsertEntries(points: seq<Point>, focus: nat, n: nat, l: seq<Slot>)
    requires focus < |points| && n < |points|
    requires Ranked(points, focus, n + 1, l) && Candidate(points, focus, n)
    ensures var r := Insert(l, Slot(n, SqDist(points[focus], points[n])));
      forall m :: 0 <= m < SLOTS ==> r[m] == Unused || Entry(points, focus, n + 1, r[m])
  {
  }

  /** After the insertion, used slots still come first in increasing rank. */
  lemma InsertOrdered(points: seq<Point>, focus: nat, n: nat, l: seq<Slot>)
    requires focus < |points| && n < |points|
    requires Ranked(points, focus, n, l) && Candidate(points, focus, n)
    ensures var r := Insert(l, Slot(n, SqDist(points[focus], points[n])));
      forall i, j :: 0 <= i < j < SLOTS && r[j] != Unused ==> r[i] != Unused && Before(r[i], r[j])
  {
    var s := Slot(n, SqDist(points[focus], points[n]));
    var k := FirstAbove(l, s.dist, 0);
    var r := Insert(l, s);
    forall i, j | 0 <= i < j < SLOTS && r[j] != Unused
      ensures r[i] != Unused && Before(r[i], r[j])
    {
      if j < k {
        assert r[i] == l[i] && r[j] == l[j];
      } else if j == k {
        assert r[i] == l[i] && r[j] == s;
        assert l[i].dist <= s.dist < FLT_MAX;
      } else if i < k {
        assert r[i] == l[i] && r[j] == l[j - 1];
        assert l[i].dist <= s.dist < FLT_MAX;
        assert l[i].dist <= l[j - 1].dist;
        if j - 1 > i {
          assert l[j - 1] != Unused;
        }
      } else if i == k {
        assert r[i] == s && r[j] == l[j - 1];
        assert s.dist < l[k].dist <= l[j - 1].dist;
      } else {
        assert r[i] == l[i - 1] && r[j] == l[j - 1];
        assert l[j - 1] != Unused;
      }
    }
  }

  /** Distances never fall along the list after the insertion. */
  lemma InsertSorted(l: seq<Slot>, s: Slot)
    requires forall i, j :: 0 <= i < j < |l| ==> l[i].dist <= l[j].dist
    ensures var r := Insert(l, s);
      forall i, j :: 0 <= i < j < |r| ==> r[i].dist <= r[j].dist
  {
    var k := FirstAbove(l, s.dist, 0);
    var r := Insert(l, s);
    forall i, j | 0 <= i < j < |r|
      ensures r[i].dist <= r[j].dist
    {
      if i < k && k < j {
        assert l[i].dist <= l[j - 1].dist;
      }
    }
  }

  /** The list stays complete while the scan goes on. */
  lemma InsertComplete(points: seq<Point>, focus: nat, n: nat, l: seq<Slot>)
    requires focus < |points| && n < |points|
    requires Ranked(points, focus, n, l) && Complete(points, focus, n, l)
    ensures var r := if Candidate(points, focus, n)
      then Insert(l, Slot(n, SqDist(points[focus], points[n]))) else l;
      Complete(points, focus, n + 1, r)
  {
    if Candidate(points, focus, n) {
      var s := Slot(n, SqDist(points[focus], points[n]));
      var k := FirstAbove(l, s.dist, 0);
      var r := Insert(l, s);
      var last := SLOTS - 1;
      if k == SLOTS {
        assert l[last] != Unused;
        assert r == l;
      } else {
        assert r[k] == s;
        assert n in Ids(r);
        forall i | 0 <= i < n && Candidate(points, focus, i)
          ensures i in Ids(r) || (r[last] != Unused && r[last].dist <= SqDist(points[focus], points[i]))
        {
          InsertKeepsListed(points, focus, n, l, i);
        }
      }
    }
  }

  /** A sample listed before an insertion that takes a slot is still listed,
      or it fell off the end of a full list, whose new last entry is no
      further away than the old one. */
  lemma InsertKeepsListed(points: seq<Point>, focus: nat, n: nat, l: seq<Slot>, i: nat)
    requires focus < |points| && n < |points|
    requires Ranked(points, focus, n, l) && Complete(points, focus, n, l)
    requires FirstAbove(l, SqDist(points[focus], points[n]), 0) < SLOTS
    requires i < n && Candidate(points, focus, i)
    ensures var r := Insert(l, Slot(n, SqDist(points[focus], points[n])));
      i in Ids(r) || (r[SLOTS - 1] != Unused && r[SLOTS - 1].dist <= SqDist(points[focus], points[i]))
  {
    var s := Slot(n, SqDist(points[focus], points[n]));
    var k := FirstAbove(l, s.dist, 0);
    var r := Insert(l, s);
    var last := SLOTS - 1;
    assert r[last] == (if k < last then l[last - 1] else s);
    assert r[last].dist <= l[last].dist;
    if i in Ids(l) {
      var m :| 0 <= m < |l| && l[m].id == i;
      if m < k {
        assert r[m] == l[m];
      } else if m < last {
        assert r[m + 1] == l[m];
      } else {
        assert l[last] != Unused;
        Full(points, focus, n, l);
      }
    } else {
      Full(points, focus, n, l);
    }
  }

  /** A ranked list whose last slot is used has every slot used. */
  lemma Full(points: seq<Point>, focus: nat, n: nat, l: seq<Slot>)
    requires focus < |points| && n <= |points|
    requires Ranked(points, focus, n, l) && l[SLOTS - 1] != Unused
    ensures forall m :: 0 <= m < SLOTS ==> l[m] != Unused
  {
  }

  /** The scan's list is ranked and complete at every step. */
  lemma {:induction false} NearestInvariant(points: seq<Point>, focus: nat, n: nat)
    requires focus < |points| && n <= |points|
    ensures Ranked(points, focus, n, Nearest(points, focus, n))
    ensures Complete(points, focus, n, Nearest(points, focus, n))
  {
    if n > 0 {
      NearestInvariant(points, focus, n - 1);
      var l := Nearest(points, focus, n - 1);
      InsertComplete(points, focus, n - 1, l);
      if Candidate(points, focus, n - 1) {
        InsertRanked(points, focus, n - 1, l);
        assert Nearest(points, focus, n) == Insert(l, Slot(n - 1, SqDist(points[focus], points[n - 1])));
      } else {
        RankedGrows(points, focus, n - 1, l);
        assert Nearest(points, focus, n) == l;
      }
    }
  }

  /** The finished list: five slots; the used ones come first, name distinct
      qualifying samples other than the hovered one, each with its distance,
      below the cutoff and in non-decreasing distance, ties in scan order;
      and every qualifying sample is listed unless five nearer-or-equal ones are. */
  lemma NearestProperties(points: seq<Point>, focus: nat)
    requires focus < |points|
    ensures var l := Nearest(points, focus, |points|);
      && |l| == SLOTS
      && (forall m :: 0 <= m < SLOTS && l[m] != Unused ==>
            && 0 <= l[m].id < |points| && l[m].id != focus
            && l[m].dist == SqDist(points[focus], points[l[m].id]) && l[m].dist < CUTOFF)
      && (forall i, j :: 0 <= i < j < SLOTS && l[j] != Unused ==> l[i] != Unused)
      && (forall i, j :: 0 <= i < j < SLOTS ==> l[i].dist <= l[j].dist)
      && (forall i, j :: 0 <= i < j < SLOTS && l[j] != Unused && l[i].dist == l[j].dist ==> l[i].id < l[j].id)
      && (forall i, j :: 0 <= i < j < SLOTS && l[j] != Unused ==> l[i].id != l[j].id)
      && Complete(points, focus, |points|, l)
  {
    NearestInvariant(points, focus, |points|);
  }

  /** The inner loop over the five slots, in place. */
  method InsertSlot(closest: array<Slot>, s: Slot)
    modifies closest
    ensures closest[..] == Insert(old(closest[..]), s)
  {
    ghost var l := closest[..];
    var k := 0;
    while k < closest.Length
      invariant 0 <= k <= closest.Length
      invariant closest[..] == l
      invariant FirstAbove(l, s.dist, 0) == FirstAbove(l, s.dist, k)
    {
      if s.dist < closest[k].dist {
        var j := closest.Length - 1;
        while j > k
          invariant k <= j < closest.Length
          invariant forall m :: 0 <= m <= j ==> closest[m] == l[m]
          invariant forall m :: j < m < closest.Length ==> closest[m] == l[m - 1]
        {
          closest[j] := closest[j - 1];
          j := j - 1;
        }
        closest[k] := s;
        return;
      }
      k := k + 1;
    }
  }

  /** The k-nearest scan of `DrawMap` for the hovered sample `focus`. */
  method KNearest(points: seq<Point>, focus: nat) returns (closest: seq<Slot>)
    requires focus < |points|
    ensures closest == Nearest(points, focus, |points|)
  {
    var slots := new Slot[SLOTS](_ => Unused);
    var i := 0;
    while i < |points|
      invariant 0 <= i <= |points|
      invariant slots[..] == Nearest(points, focus, i)
    {
      if i != focus && Abs(points[focus].screenX - points[i].screenX) <= SCREEN_WINDOW {
        var dist := SqDist(points[focus], points[i]);
        if dist < CUTOFF {
          InsertSlot(slots, Slot(i, dist));
        }
      }
      i := i + 1;
    }
    closest := slots[..];
  }

  /** The context menu's scan state after samples `0 .. n - 1`: the most
      similar index so far (-1 for none) and its distance. */
  datatype Match = Match(index: int, dist: real)

  function BestOf(points: seq<Point>, focus: nat, n: nat): (r: Match)
    requires focus < |points| && n <= |points|
  {
    if n == 0 then Match(-1, FLT_MAX)
    else
      var m := BestOf(points, focus, n - 1);
      var d := SqDist(points[focus], points[n - 1]);
      if n - 1 != focus && d < m.dist then Match(n - 1, d) else m
  }

  /** The scan finds no match exactly when every other sample is at least
      `FLT_MAX` away; otherwise it finds the first sample at the least
      distance. */
  lemma {:induction false} BestOfIsFirstMinimum(points: seq<Point>, focus: nat, n: nat)
    requires focus < |points| && n <= |points|
    ensures var m := BestOf(points, focus, n);
      && (m.index == -1 <==> forall i :: 0 <= i < n && i != focus ==> SqDist(points[focus], points[i]) >= FLT_MAX)
      && (m.index == -1 ==> m.dist == FLT_MAX)
      && (m.index != -1 ==>
            && 0 <= m.index < n && m.index != focus
            && m.dist == SqDist(points[focus], points[m.index]) < FLT_MAX
            && (forall i :: 0 <= i < n && i != focus ==> m.dist <= SqDist(points[focus], points[i]))
            && (forall i :: 0 <= i < m.index && i != focus ==> m.dist < SqDist(points[focus], points[i])))
  {
    if n > 0 {
      BestOfIsFirstMinimum(points, focus, n - 1);
    }
  }

  /** When every distance is finite, no match means no other sample. */
  lemma NoMatchMeansAlone(points: seq<Point>, focus: nat)
    requires focus < |points|
    requires forall i :: 0 <= i < |points| ==> SqDist(points[focus], points[i]) < FLT_MAX
    ensures BestOf(points, focus, |points|).index == -1 <==> |points| == 1
  {
    BestOfIsFirstMinimum(points, focus, |points|);
    if |points| > 1 {
      var other := if focus == 0 then 1 else 0;
      assert other != focus && SqDist(points[focus], points[other]) < FLT_MAX;
    }
  }

  /** The context menu's most-similar-sample scan. */
  method BestMatch(points: seq<Point>, focus: nat) returns (simIdx: int)
    requires focus < |points|
    ensures simIdx == BestOf(points, focus, |points|).index
  {
    simIdx := -1;
    var minDist := FLT_MAX;
    var i := 0;
    while i < |points|
      invariant 0 <= i <= |points|
      invariant BestOf(points, focus, i) == Match(simIdx, minDist)
    {
      if i != focus {
        var d := SqDist(points[focus], points[i]);
        if d < minDist {
          minDist := d;
          simIdx := i;
        }
      }
      i := i + 1;
    }
  }
}
