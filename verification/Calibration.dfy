/** ST3215 servo calibration on a ring of 4096 ticks: from the set of readings to an arc, from the arc
    to the offset written to the servo and the frozen bounds around tick 2048. */
module Calibration {

  const FULL_RANGE: int := 4096

  datatype Arc = Arc(min: int, max: int)

  /******* The arc of a set of readings *******/

  /** A `BTreeSet` is iterated in increasing order. */
  ghost predicate Increasing(s: seq<int>) {
    forall i, j :: 0 <= i < j < |s| ==> s[i] < s[j]
  }

  ghost predicate InRing(s: seq<int>) {
    forall i :: 0 <= i < |s| ==> 0 <= s[i] < FULL_RANGE
  }

  function GapAt(s: seq<int>, i: int): int
    requires 0 <= i < |s|
  {
    if i + 1 < |s| then s[i + 1] - s[i] else FULL_RANGE - s[i] + s[0]
  }

  /** The gap after reading `k` is more than three times every other gap and is not the one across
      tick 0. */
  ghost predicate Dominant(s: seq<int>, k: int) {
    0 <= k && k + 1 < |s| && forall j :: 0 <= j < |s| && j != k ==> GapAt(s, k) > 3 * GapAt(s, j)
  }

  /** The arc as a property of the gaps alone: it leaves out a dominant gap if there is one, and the
      gap across tick 0 otherwise. */
  ghost function ArcOf(s: seq<int>): Arc {
    if s == [] then Arc(0, 0)
    else if exists k :: Dominant(s, k) then
      var k :| Dominant(s, k);
      Arc(s[k + 1], s[k])
    else Arc(s[0], s[|s| - 1])
  }

  /** All indices of `gaps`, largest gap first; the unstable sort promises no order among equals. */
  ghost predicate Descending(order: seq<nat>, gaps: seq<int>) {
    && |order| == |gaps|
    && (forall x: nat :: x < |gaps| ==> x in order)
    && Ordered(order, gaps)
  }

  ghost predicate Ordered(order: seq<nat>, gaps: seq<int>) {
    && (forall i :: 0 <= i < |order| ==> order[i] < |gaps|)
    && (forall i, j :: 0 <= i < j < |order| ==> order[i] != order[j] && gaps[order[i]] >= gaps[order[j]])
  }

  method SortIndices(gaps: seq<int>) returns (order: seq<nat>)
    ensures Descending(order, gaps)
  {
    order := [];
    for k := 0 to |gaps|
      invariant |order| == k && Ordered(order, gaps)
      invariant forall i :: 0 <= i < |order| ==> order[i] < k
      invariant forall x: nat :: x < k ==> x in order
    {
      var at := 0;
      while at < |order| && gaps[order[at]] >= gaps[k]
        invariant 0 <= at <= |order|
        invariant forall i :: 0 <= i < at ==> gaps[order[i]] >= gaps[k]
      {
        at := at + 1;
      }
      InsertedStaysOrdered(order, gaps, k, at);
      InsertedAt(order, k, at);
      forall x: nat | x < k + 1 ensures x in Inserted(order, k, at) {
        InsertedHolds(order, k, at, x);
      }
      hide Inserted, Ordered;
      order := Inserted(order, k, at);
    }
  }

  function Inserted(order: seq<nat>, k: nat, at: nat): seq<nat>
    requires at <= |order|
  {
    order[..at] + [k] + order[at..]
  }

  lemma InsertedAt(order: seq<nat>, k: nat, at: nat)
    requires at <= |order|
    ensures var next := Inserted(order, k, at);
      && |next| == |order| + 1
      && (forall i :: 0 <= i < at ==> next[i] == order[i])
      && next[at] == k
      && (forall i :: at < i < |next| ==> next[i] == order[i - 1])
  {
  }

  lemma InsertedHolds(order: seq<nat>, k: nat, at: nat, x: nat)
    requires at <= |order| && (x == k || x in order)
    ensures x in Inserted(order, k, at)
  {
    var next := Inserted(order, k, at);
    if x == k {
      assert next[at] == x;
    } else {
      var i :| 0 <= i < |order| && order[i] == x;
      assert next[if i < at then i else i + 1] == x;
    }
  }

  lemma InsertedStaysOrdered(order: seq<nat>, gaps: seq<int>, k: nat, at: nat)
    requires Ordered(order, gaps) && k < |gaps| && at <= |order|
    requires forall i :: 0 <= i < |order| ==> order[i] < k
    requires forall i :: 0 <= i < at ==> gaps[order[i]] >= gaps[k]
    requires at < |order| ==> gaps[order[at]] < gaps[k]
    ensures Ordered(Inserted(order, k, at), gaps)
    ensures forall i :: 0 <= i <= |order| ==> Inserted(order, k, at)[i] < k + 1
  {
    var next := Inserted(order, k, at);
    InsertedAt(order, k, at);
    hide Inserted;
    assert forall i :: at < i < |order| ==> gaps[order[at]] >= gaps[order[i]];
    forall i, j | 0 <= i < j < |next| ensures next[i] != next[j] && gaps[next[i]] >= gaps[next[j]] {
      var i', j' := if i < at then i else i - 1, if j < at then j else j - 1;
      assert i != at ==> next[i] == order[i'];
      assert j != at ==> next[j] == order[j'];
    }
  }

  lemma DominantUnique(s: seq<int>, k: int, k': int)
    requires Increasing(s) && Dominant(s, k) && Dominant(s, k')
    ensures k == k'
  {
    assert GapAt(s, k) > 0 && GapAt(s, k') > 0;
  }

  /** When some gap is as large as the one after `k`, it dominates nothing. */
  lemma NotDominant(s: seq<int>, k: int, j: int)
    requires Increasing(s) && 0 <= j < |s| && j != k
    requires 0 <= k && k + 1 < |s| ==> GapAt(s, k) <= 3 * GapAt(s, j)
    ensures !Dominant(s, k)
  {
  }

  /** `calculate_arc`. */
  method CalculateArc(s: seq<int>) returns (arc: Arc)
    requires Increasing(s)
    ensures arc == ArcOf(s)
  {
    if |s| < 2 {
      if s == [] {
        return Arc(0, 0);
      }
      return Arc(s[0], s[0]);
    }
    var gaps: seq<int> := [];
    var starts: seq<int> := [];
    for i := 0 to |s|
      invariant |gaps| == |starts| == i
      invariant forall j :: 0 <= j < i ==> gaps[j] == GapAt(s, j) && starts[j] == s[j]
    {
      starts := starts + [s[i]];
      if i + 1 < |s| {
        gaps := gaps + [s[i + 1] - s[i]];
      } else {
        gaps := gaps + [FULL_RANGE - s[i] + s[0]];
      }
    }
    var order := SortIndices(gaps);
    arc := PickArc(s, gaps, starts, order);
  }

  function NextAround(i: nat, n: nat): (r: nat)
    requires i < n
    ensures r == if i + 1 < n then i + 1 else 0
  {
    (i + 1) % n
  }

  /** The decision, for any order the sort may have produced. */
  method PickArc(s: seq<int>, gaps: seq<int>, starts: seq<int>, order: seq<nat>) returns (arc: Arc)
    requires Increasing(s) && |s| >= 2 && starts == s && |gaps| == |s| && Descending(order, gaps)
    requires forall j :: 0 <= j < |s| ==> gaps[j] == GapAt(s, j)
    ensures arc == ArcOf(s)
  {
    var largest := order[0];
    var second := gaps[order[1]];
    LargestFirst(gaps, order);
    assert order[1] != largest;
    hide Descending, Ordered, NextAround;
    if largest == |gaps| - 1 {
      forall k ensures !Dominant(s, k) {
        if 0 <= k && k + 1 < |s| {
          assert 0 < GapAt(s, k) <= GapAt(s, largest);
          NotDominant(s, k, largest);
        }
      }
      arc := Arc(s[0], s[|s| - 1]);
    } else {
      var before := starts[largest];
      var after := starts[NextAround(largest, |starts|)];
      assert 0 < GapAt(s, largest);
      if gaps[largest] > second * 3 {
        assert Dominant(s, largest);
        forall k | Dominant(s, k) ensures k == largest {
          DominantUnique(s, k, largest);
        }
        arc := Arc(after, before);
      } else {
        forall k ensures !Dominant(s, k) {
          NotDominant(s, k, if k == largest then order[1] else largest);
        }
        arc := Arc(s[0], s[|s| - 1]);
      }
    }
  }

  lemma LargestFirst(gaps: seq<int>, order: seq<nat>)
    requires |gaps| >= 2 && Descending(order, gaps)
    ensures forall j :: 0 <= j < |gaps| ==> gaps[j] <= gaps[order[0]]
    ensures forall j :: 0 <= j < |gaps| && j != order[0] ==> gaps[j] <= gaps[order[1]]
  {
    forall j | 0 <= j < |gaps|
      ensures gaps[j] <= gaps[order[0]] && (j != order[0] ==> gaps[j] <= gaps[order[1]])
    {
      var x: nat := j;
      assert x in order;
      var i :| 0 <= i < |order| && order[i] == x;
    }
  }

  /******* What the arc means on the ring *******/

  function Along(from: int, to: int): (d: int)
    ensures 0 <= d < FULL_RANGE
  {
    (to - from) % FULL_RANGE
  }

  function Length(arc: Arc): int {
    Along(arc.min, arc.max)
  }

  ghost predicate Covers(arc: Arc, p: int) {
    Along(arc.min, p) <= Length(arc)
  }

  ghost predicate CoversAll(arc: Arc, s: seq<int>) {
    forall i :: 0 <= i < |s| ==> Covers(arc, s[i])
  }

  function SumOfGaps(s: seq<int>, n: nat): int
    requires n <= |s|
  {
    if n == 0 then 0 else SumOfGaps(s, n - 1) + GapAt(s, n - 1)
  }

  lemma {:induction false} GapsTelescope(s: seq<int>, n: nat)
    requires n < |s|
    ensures SumOfGaps(s, n) == s[n] - s[0]
  {
    if n > 0 {
      GapsTelescope(s, n - 1);
    }
  }

  lemma GapsSumToRing(s: seq<int>)
    requires s != []
    ensures SumOfGaps(s, |s|) == FULL_RANGE
  {
    GapsTelescope(s, |s| - 1);
  }

  /** The arc that leaves out exactly the gap after reading `k`. */
  function Without(s: seq<int>, k: nat): Arc
    requires k < |s|
  {
    if k + 1 < |s| then Arc(s[k + 1], s[k]) else Arc(s[0], s[k])
  }

  lemma AlongOrdered(from: int, to: int)
    requires 0 <= from < FULL_RANGE && 0 <= to < FULL_RANGE
    ensures Along(from, to) == if to >= from then to - from else to - from + FULL_RANGE
  {
  }

  lemma WithoutCovers(s: seq<int>, k: nat)
    requires k < |s| && Increasing(s) && InRing(s)
    ensures CoversAll(Without(s, k), s)
    ensures |s| >= 2 ==> Length(Without(s, k)) == FULL_RANGE - GapAt(s, k)
  {
    hide Along;
    var arc := Without(s, k);
    AlongOrdered(arc.min, arc.max);
    forall i | 0 <= i < |s| ensures Covers(arc, s[i]) {
      AlongOrdered(arc.min, s[i]);
      assert s[0] <= s[i] <= s[|s| - 1];
      assert i <= k ==> s[i] <= s[k];
      assert i > k ==> s[k + 1] <= s[i];
    }
  }

  /** An arc that covers every reading has room for only one gap outside it. */
  lemma CoverMissesOneGap(s: seq<int>, arc: Arc) returns (k: nat)
    requires |s| >= 1 && Increasing(s) && InRing(s) && InRing([arc.min, arc.max]) && CoversAll(arc, s)
    ensures k < |s| && Length(arc) >= FULL_RANGE - GapAt(s, k)
  {
    assert 0 <= [arc.min, arc.max][0] < FULL_RANGE;
    if arc.min <= s[0] || s[|s| - 1] < arc.min {
      k := |s| - 1;
      assert Covers(arc, s[k]);
    } else {
      k := 0;
      while s[k + 1] < arc.min
        invariant k + 1 < |s| && s[k] < arc.min
        decreases |s| - k
      {
        k := k + 1;
      }
      assert Covers(arc, s[k]);
    }
  }

  ghost predicate LargestGap(s: seq<int>, k: int) {
    0 <= k < |s| && forall j :: 0 <= j < |s| ==> GapAt(s, j) <= GapAt(s, k)
  }

  /** The gap the computed arc leaves out. */
  lemma ArcOmitsOneGap(s: seq<int>) returns (k: nat)
    requires |s| >= 2 && Increasing(s)
    ensures k < |s| && ArcOf(s) == Without(s, k)
    ensures Dominant(s, k) || (k == |s| - 1 && forall j :: !Dominant(s, j))
  {
    if exists j :: Dominant(s, j) {
      var j :| Dominant(s, j) && ArcOf(s) == Arc(s[j + 1], s[j]);
      k := j;
    } else {
      k := |s| - 1;
    }
  }

  lemma ArcCoversReadings(s: seq<int>)
    requires s != [] && Increasing(s) && InRing(s)
    ensures CoversAll(ArcOf(s), s)
  {
    if |s| == 1 {
      assert forall k :: !Dominant(s, k);
    } else {
      var k := ArcOmitsOneGap(s);
      WithoutCovers(s, k);
    }
  }

  ghost predicate Shortest(arc: Arc, s: seq<int>) {
    forall other: Arc :: InRing([other.min, other.max]) && CoversAll(other, s) ==> Length(arc) <= Length(other)
  }

  /** The computed arc is a shortest cover exactly when the gap across tick 0 is a largest one or some
      gap dominates: otherwise a larger gap was left inside the arc. */
  lemma ArcShortestIff(s: seq<int>)
    requires |s| >= 2 && Increasing(s) && InRing(s)
    ensures Shortest(ArcOf(s), s) <==> LargestGap(s, |s| - 1) || exists k :: Dominant(s, k)
  {
    var k := ArcOmitsOneGap(s);
    WithoutCovers(s, k);
    if LargestGap(s, k) {
      forall other: Arc | InRing([other.min, other.max]) && CoversAll(other, s)
        ensures Length(ArcOf(s)) <= Length(other)
      {
        var j := CoverMissesOneGap(s, other);
      }
    } else {
      var j :| 0 <= j < |s| && GapAt(s, j) > GapAt(s, k);
      WithoutCovers(s, j);
      var better := Without(s, j);
      assert InRing([better.min, better.max]) && Length(better) < Length(ArcOf(s));
    }
    if Dominant(s, k) {
      assert GapAt(s, k) > 0;
      assert LargestGap(s, k);
    }
  }

  /** The decision in plain numbers: the arc runs across tick 0, leaving out the gap between two neighbours,
      exactly when that gap is more than three times every other one, the one across tick 0 included; in all
      other cases it runs from the lowest to the highest reading. */
  lemma ArcWrapsIff(s: seq<int>, k: nat)
    requires Increasing(s) && InRing(s) && k + 1 < |s|
    ensures ArcOf(s) == Arc(s[k + 1], s[k]) <==>
      && s[k + 1] - s[k] > 3 * (4096 - s[|s| - 1] + s[0])
      && forall j :: 0 <= j < |s| - 1 && j != k ==> s[k + 1] - s[k] > 3 * (s[j + 1] - s[j])
    ensures (forall k :: 0 <= k < |s| - 1 ==> ArcOf(s) != Arc(s[k + 1], s[k])) <==> ArcOf(s) == Arc(s[0], s[|s| - 1])
  {
    DominantInNumbers(s, k);
    var i := ArcOmitsOneGap(s);
    if Dominant(s, k) {
      if Dominant(s, i) {
        DominantUnique(s, i, k);
      }
    }
    assert forall a, b :: 0 <= a < b < |s| ==> s[a] < s[b];
  }

  lemma DominantInNumbers(s: seq<int>, k: nat)
    requires Increasing(s) && k + 1 < |s|
    ensures Dominant(s, k) <==>
      && s[k + 1] - s[k] > 3 * (4096 - s[|s| - 1] + s[0])
      && forall j :: 0 <= j < |s| - 1 && j != k ==> s[k + 1] - s[k] > 3 * (s[j + 1] - s[j])
  {
    assert GapAt(s, |s| - 1) == 4096 - s[|s| - 1] + s[0];
    assert forall j :: 0 <= j < |s| - 1 ==> GapAt(s, j) == s[j + 1] - s[j];
  }

  /** Three evenly spread readings get an arc of 3000 ticks although 2596 ticks cover them. */
  lemma EvenSpreadIsNotShortest()
    ensures var s := [0, 1500, 3000];
      Increasing(s) && InRing(s) && ArcOf(s) == Arc(0, 3000) && !Shortest(ArcOf(s), s)
  {
    hide Shortest;
    var s := [0, 1500, 3000];
    assert GapAt(s, 0) == 1500 && GapAt(s, 1) == 1500 && GapAt(s, 2) == 1096;
    NotDominant(s, 0, 1);
    NotDominant(s, 1, 0);
    assert forall k :: Dominant(s, k) ==> k == 0 || k == 1;
    hide Dominant;
    ArcShortestIff(s);
  }
}
