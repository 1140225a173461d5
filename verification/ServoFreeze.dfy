/** Freezing a calibration: the offset written to the servo moves the middle of the arc to tick 2048,
    and the frozen bounds are centred there.  A servo reports its raw position minus the offset, modulo
    the ring; that is the inverse of how the reader recovers the raw position. */
module ServoFreeze {
  import opened Calibration

  const CENTRE: int := 2048

  predicate ValidArc(arc: Arc) {
    0 <= arc.min < FULL_RANGE && 0 <= arc.max < FULL_RANGE
  }

  /** `exec_get_midpoint`. */
  function Midpoint(arc: Arc): int {
    if arc.max >= arc.min then arc.min + (arc.max - arc.min) / 2
    else
      var rangeSize := (FULL_RANGE - arc.min) + arc.max;
      (arc.min + rangeSize / 2) % FULL_RANGE
  }

  /** The range used when the freeze command carries the arcs. */
  function ProvidedRange(arc: Arc): int {
    if arc.max >= arc.min then arc.max - arc.min else (FULL_RANGE - arc.min) + arc.max
  }

  /** The range used when the arcs come from the tracked readings. */
  function TrackedRange(arc: Arc): int {
    if arc.min < arc.max then arc.max - arc.min else (FULL_RANGE - arc.min) + arc.max
  }

  function Centred(range: int): Arc
    requires 0 <= range <= FULL_RANGE
  {
    Arc((CENTRE - range / 2 + FULL_RANGE) % FULL_RANGE, (CENTRE + range / 2) % FULL_RANGE)
  }

  function DecodeOffset(bytes: seq<int>): int
    requires |bytes| == 2
  {
    var u := bytes[0] + 256 * bytes[1];
    if u >= 0x8000 then u - 0x10000 else u
  }

  /** The offset a midpoint leads to, without the wrapping and clamping of the code: midpoint 0 would
      need 2048, which the register cannot hold. */
  ghost function OffsetFor(midpoint: int): int {
    if midpoint == 0 then 2047 else midpoint - CENTRE
  }

  /** The offset arithmetic of `freeze_calibration` and the two bytes it writes. */
  method OffsetBytes(midpoint: int) returns (correction: int, bytes: seq<int>)
    requires 0 <= midpoint < FULL_RANGE
    ensures -2047 <= correction <= 2047
    ensures midpoint != 0 ==> (midpoint - correction) % FULL_RANGE == CENTRE
    ensures midpoint == 0 ==> (midpoint - correction) % FULL_RANGE == CENTRE + 1
    ensures correction == OffsetFor(midpoint)
    ensures |bytes| == 2 && 0 <= bytes[0] < 256 && 0 <= bytes[1] < 256 && DecodeOffset(bytes) == correction
  {
    correction := midpoint - CENTRE;
    if correction > 2047 {
      correction := correction - FULL_RANGE;
    } else if correction < -2047 {
      correction := correction + FULL_RANGE;
    }
    correction := if correction < -2047 then -2047 else if correction > 2047 then 2047 else correction;
    bytes := [correction % 256, (correction / 256) % 256];
  }

  /** The servo's report of a raw position under an offset. */
  function Reported(raw: int, offset: int): int {
    (raw - offset) % FULL_RANGE
  }

  /** How the reader recovers the raw position. */
  function Recovered(position: int, offset: int): int {
    (position + offset + FULL_RANGE) % FULL_RANGE
  }

  ghost function FrozenReport(arc: Arc, p: int): int {
    Reported(p, OffsetFor(Midpoint(arc)))
  }

  ghost predicate Inside(bounds: Arc, p: int) {
    bounds.min <= p <= bounds.max
  }

  lemma MidpointIsHalfway(arc: Arc)
    requires ValidArc(arc)
    ensures 0 <= Midpoint(arc) < FULL_RANGE
    ensures Along(arc.min, Midpoint(arc)) == Length(arc) / 2
    ensures ProvidedRange(arc) == Length(arc)
    ensures arc.min != arc.max ==> TrackedRange(arc) == Length(arc)
  {
    hide Along;
    AlongOrdered(arc.min, arc.max);
    AlongOrdered(arc.min, Midpoint(arc));
  }

  /** Where a covered position is reported once the offset is in place: its distance along the arc,
      counted from the lower frozen bound; one tick further when the midpoint is tick 0. */
  lemma ReportIsCentred(arc: Arc, p: int)
    requires ValidArc(arc) && 0 <= p < FULL_RANGE && Covers(arc, p)
    ensures FrozenReport(arc, p)
      == (CENTRE - Length(arc) / 2 + Along(arc.min, p) + (if Midpoint(arc) == 0 then 1 else 0)) % FULL_RANGE
    ensures Recovered(FrozenReport(arc, p), OffsetFor(Midpoint(arc))) == p
  {
    hide Along, Midpoint, Length;
    MidpointIsHalfway(arc);
    AlongOrdered(arc.min, p);
    AlongOrdered(arc.min, Midpoint(arc));
    var turn := if Midpoint(arc) == 0 then 1 else 0;
    var x := CENTRE - Length(arc) / 2 + Along(arc.min, p) + turn;
    var y := p - OffsetFor(Midpoint(arc));
    assert x - y == -FULL_RANGE || x - y == 0 || x - y == FULL_RANGE;
    RingEqual(x, y);
    RecoverUndoes(p, OffsetFor(Midpoint(arc)));
  }

  lemma RingEqual(x: int, y: int)
    requires x - y == -FULL_RANGE || x - y == 0 || x - y == FULL_RANGE
    ensures x % FULL_RANGE == y % FULL_RANGE
  {
  }

  lemma RecoverUndoes(p: int, offset: int)
    requires 0 <= p < FULL_RANGE && -2047 <= offset <= 2047
    ensures Recovered(Reported(p, offset), offset) == p
  {
  }

  /** With a midpoint other than tick 0 every covered position lands inside, but for the top end of an odd
      range. */
  lemma PositionInside(arc: Arc, p: int)
    requires ValidArc(arc) && arc.min != arc.max && 0 <= p < FULL_RANGE && Covers(arc, p)
    requires Midpoint(arc) != 0 && (p != arc.max || Length(arc) % 2 == 0)
    ensures Inside(Centred(TrackedRange(arc)), FrozenReport(arc, p))
  {
    hide Along, Midpoint, TrackedRange, ProvidedRange, Length, FrozenReport, Centred;
    FrozenBounds(arc);
    ReportLands(arc, p);
    AlongOrdered(arc.min, p);
  }

  lemma TopEndLands(arc: Arc)
    requires ValidArc(arc) && arc.min != arc.max && Midpoint(arc) != 0
    ensures FrozenReport(arc, arc.max) == (Centred(TrackedRange(arc)).max + Length(arc) % 2) % FULL_RANGE
  {
    var top := Centred(TrackedRange(arc)).max;
    hide Along, Midpoint, TrackedRange, ProvidedRange, Length, FrozenReport, Centred;
    FrozenBounds(arc);
    ReportLands(arc, arc.max);
    OnceAround(top + Length(arc) % 2);
  }

  /** Every covered position lands inside the frozen bounds exactly when the range is even and the
      midpoint is not tick 0.  With an odd range (midpoint not 0) only the top end misses, by one tick. */
  lemma FrozenBoundsHoldIff(arc: Arc)
    requires ValidArc(arc) && arc.min != arc.max
    ensures var bounds := Centred(TrackedRange(arc));
      && Centred(ProvidedRange(arc)) == bounds && bounds.min <= bounds.max
      && ((forall p :: 0 <= p < FULL_RANGE && Covers(arc, p) ==> Inside(bounds, FrozenReport(arc, p)))
          <==> Length(arc) % 2 == 0 && Midpoint(arc) != 0)
      && (Midpoint(arc) != 0 ==>
          && (forall p :: 0 <= p < FULL_RANGE && Covers(arc, p) && p != arc.max ==>
            Inside(bounds, FrozenReport(arc, p)))
          && FrozenReport(arc, arc.max) == (bounds.max + Length(arc) % 2) % FULL_RANGE)
  {
    var bounds := Centred(TrackedRange(arc));
    hide Along, Midpoint, TrackedRange, ProvidedRange, Length, FrozenReport, Centred, Covers, Inside;
    FrozenBounds(arc);
    if Midpoint(arc) != 0 {
      TopEndLands(arc);
      forall p | 0 <= p < FULL_RANGE && Covers(arc, p) && (p != arc.max || Length(arc) % 2 == 0)
        ensures Inside(bounds, FrozenReport(arc, p))
      {
        PositionInside(arc, p);
      }
    }
    if Midpoint(arc) == 0 || Length(arc) % 2 == 1 {
      var p := SomethingFallsOut(arc);
    }
  }

  lemma FrozenBounds(arc: Arc)
    requires ValidArc(arc) && arc.min != arc.max
    ensures var half := Length(arc) / 2;
      && Centred(ProvidedRange(arc)) == Centred(TrackedRange(arc)) == Arc(CENTRE - half, CENTRE + half)
      && 0 <= half <= 2047 && Length(arc) == 2 * half + Length(arc) % 2
      && Length(arc) == (if arc.max >= arc.min then arc.max - arc.min else arc.max - arc.min + FULL_RANGE)
      && Covers(arc, arc.max) && Length(arc) == Along(arc.min, arc.max)
  {
    MidpointIsHalfway(arc);
    AlongOrdered(arc.min, arc.max);
  }

  /** The top end leaves the bounds; with 4095 ticks around tick 0 the tick below it does. */
  lemma SomethingFallsOut(arc: Arc) returns (p: int)
    requires ValidArc(arc) && arc.min != arc.max
    requires Midpoint(arc) == 0 || Length(arc) % 2 == 1
    ensures 0 <= p < FULL_RANGE && Covers(arc, p) && !Inside(Centred(TrackedRange(arc)), FrozenReport(arc, p))
  {
    hide Along, Midpoint, TrackedRange, ProvidedRange, Length, FrozenReport, Centred;
    FrozenBounds(arc);
    p := arc.max;
    if Midpoint(arc) == 0 && Length(arc) == FULL_RANGE - 1 {
      p := if arc.max == 0 then FULL_RANGE - 1 else arc.max - 1;
    }
    AlongOrdered(arc.min, p);
    ReportLands(arc, p);
  }

  lemma ReportLands(arc: Arc, p: int)
    requires ValidArc(arc) && 0 <= p < FULL_RANGE && Covers(arc, p)
    ensures var x := CENTRE - Length(arc) / 2 + Along(arc.min, p) + (if Midpoint(arc) == 0 then 1 else 0);
      FrozenReport(arc, p) == if x < FULL_RANGE then x else x - FULL_RANGE
  {
    hide FrozenReport, Along, Midpoint, ValidArc, Recovered;
    ReportIsCentred(arc, p);
    OnceAround(CENTRE - Length(arc) / 2 + Along(arc.min, p) + (if Midpoint(arc) == 0 then 1 else 0));
  }

  lemma OnceAround(x: int)
    requires 0 <= x < 2 * FULL_RANGE
    ensures x % FULL_RANGE == if x < FULL_RANGE then x else x - FULL_RANGE
  {
  }

  /** A single reading gives an arc of one tick.  The branch that is handed the arc freezes it at the
      centre, where the servo reports it unless it is tick 0; the branch that tracked it takes it for a full turn and
      freezes both bounds at tick 0. */
  lemma SingleReadingBranchesDiffer(p: int)
    requires 0 <= p < FULL_RANGE
    ensures var arc := Arc(p, p);
      && Centred(ProvidedRange(arc)) == Arc(CENTRE, CENTRE)
        && (Inside(Centred(ProvidedRange(arc)), FrozenReport(arc, p)) <==> p != 0)
      && Centred(TrackedRange(arc)) == Arc(0, 0) && !Inside(Centred(TrackedRange(arc)), FrozenReport(arc, p))
  {
    ReportIsCentred(Arc(p, p), p);
  }

  /** The highest reading is inside its bounds exactly when the range is even and the midpoint is not
      tick 0; a range of 4095 ticks is left to the caller. */
  lemma TopEndInsideIff(arc: Arc)
    requires ValidArc(arc) && arc.min != arc.max && (Length(arc) == FULL_RANGE - 1 ==> Midpoint(arc) != 0)
    ensures Inside(Centred(TrackedRange(arc)), FrozenReport(arc, arc.max)) <==>
      Length(arc) % 2 == 0 && Midpoint(arc) != 0
  {
    hide Along, Midpoint, TrackedRange, ProvidedRange, Length, FrozenReport, Centred;
    FrozenBounds(arc);
    ReportLands(arc, arc.max);
  }

  /** Readings that leave out a single tick stand at both ends of the scale. */
  lemma AlmostFullTurn(s: seq<int>)
    requires |s| >= 2 && Increasing(s) && InRing(s)
    ensures var arc := ArcOf(s);
      ValidArc(arc) && arc.min != arc.max && arc.max in s && (Length(arc) == FULL_RANGE - 1 ==> Midpoint(arc) != 0)
  {
    var k := ArcOmitsOneGap(s);
    WithoutCovers(s, k);
    if Dominant(s, k) {
      assert GapAt(s, |s| - 1) > 0;
    }
  }

  /** End to end: readings are turned into an arc, the arc into an offset and bounds.  Every reading the
      calibration saw is then recovered as itself, and all of them are reported inside the bounds
      exactly when the range is even and the midpoint is not tick 0. */
  lemma CalibrationEndToEnd(s: seq<int>)
    requires |s| >= 2 && Increasing(s) && InRing(s)
    ensures var arc := ArcOf(s); var bounds := Centred(TrackedRange(arc));
      && ((forall i :: 0 <= i < |s| ==> Inside(bounds, FrozenReport(arc, s[i])))
          <==> Length(arc) % 2 == 0 && Midpoint(arc) != 0)
      && forall i :: 0 <= i < |s| ==> Recovered(FrozenReport(arc, s[i]), OffsetFor(Midpoint(arc))) == s[i]
  {
    var arc := ArcOf(s);
    AlmostFullTurn(s);
    ArcCoversReadings(s);
    FrozenBoundsHoldIff(arc);
    TopEndInsideIff(arc);
    hide Along, Midpoint, TrackedRange, ProvidedRange, Length, FrozenReport, Centred, Inside, Recovered, Covers;
    forall i | 0 <= i < |s|
      ensures Recovered(FrozenReport(arc, s[i]), OffsetFor(Midpoint(arc))) == s[i]
    {
      assert Covers(arc, s[i]);
      ReportIsCentred(arc, s[i]);
    }
  }
}
