/** Which VLM layers have an expert layer beside them, and what that means for denoising. */
module ExpertPlacement {
  import opened Wrappers
  import opened CachedAttention
  import opened CacheCorrectness

  /******* Division by a variable *******/

  lemma MulGap(a: nat, b: nat, k: nat)
    requires a > b
    ensures a * k >= b * k + k
  {
    var d := a - b - 1;
    assert a * k == b * k + k + d * k;
  }

  lemma Unique(k: nat, q: nat, r: nat, q': nat, r': nat)
    requires q * k + r == q' * k + r' && r < k && r' < k
    ensures q == q' && r == r'
  {
    if q > q' {
      MulGap(q, q', k);
    } else if q < q' {
      MulGap(q', q, k);
    }
  }

  lemma Multiple(a: nat, k: nat)
    requires k > 0
    ensures (a * k) % k == 0 && (a * k) / k == a
  {
    var x := a * k;
    assert x == (x / k) * k + x % k;
    Unique(k, a, 0, x / k, x % k);
  }

  lemma Divides(a: nat, b: nat, k: nat)
    requires k > 0 && b > 0 && a % b == 0 && b % k == 0
    ensures a % k == 0
  {
    var q, p := a / b, b / k;
    assert a == q * b && b == p * k;
    assert q * b == q * (p * k) == (q * p) * k;
    Multiple(q * p, k);
  }

  lemma DividesProduct(a: nat, b: nat, k: nat)
    requires k > 0 && a % k == 0
    ensures (a * b) % k == 0
  {
    var q := a / k;
    assert a == q * k;
    assert a * b == (q * b) * k;
    Multiple(q * b, k);
  }

  /** A multiple of the stride that the ratio does not divide. */
  lemma StrideFits(idx: nat, stride: nat, k: nat)
    requires stride > 0 && k > 0 && idx % stride == 0 && idx % k != 0
    ensures stride <= idx && stride % k != 0
  {
    if stride % k == 0 {
      Divides(idx, stride, k);
    }
    Multiple(0, k);
  }

  /******* Layers *******/

  /** The VLM layers per expert layer. */
  function Ratio(m: Model): (k: nat)
    requires WellFormed(m) && m.vlm != []
    ensures k > 0 && |m.expert| * k == |m.vlm|
  {
    ExpertIndexInRange(m, 0);
    |m.vlm| / |m.expert|
  }

  /** A VLM layer has an expert layer beside it exactly at the multiples of the ratio. */
  lemma ExpertAtMultiples(m: Model, idx: nat)
    requires WellFormed(m) && idx < |m.vlm|
    ensures ExpertAt(m, idx).Some? <==> idx % Ratio(m) == 0
  {
    Multiple(0, Ratio(m));
  }

  /** Every expert layer runs, beside the VLM layer that many ratios down. */
  lemma EveryExpertRuns(m: Model, e: nat)
    requires WellFormed(m) && m.vlm != [] && e < |m.expert|
    ensures e * Ratio(m) < |m.vlm| && ExpertAt(m, e * Ratio(m)) == Some(m.expert[e])
  {
    MulGap(|m.expert|, e, Ratio(m));
    Multiple(e, Ratio(m));
  }

  /** The width a layer feeds an expert's projections with is the wrong one exactly when the widths
      differ, the layer is a self-attention layer and the expert's projections were reshaped: never in a
      cross-attention layer. */
  lemma MisfitMeaning(m: Model, e: nat)
    requires WellFormed(m) && m.vlm != [] && e < |m.expert|
    ensures var idx := e * Ratio(m);
      idx < |m.vlm| &&
      (MisfitAt(m, idx) <==>
        m.cross && m.expertWidth != m.kvWidth && m.selfEvery > 0 && idx % m.selfEvery == 0 && e % m.selfEvery != 0)
  {
    var k := Ratio(m);
    EveryExpertRuns(m, e);
    Multiple(e, k);
    assert ExpertIndex(m, e * k) == Some(e);
    if m.selfEvery > 0 && e % m.selfEvery == 0 {
      DividesProduct(e, k, m.selfEvery);
    }
    hide ExpertIndex, Ratio;
  }

  lemma NextToExpert(m: Model, idx: nat)
    requires WellFormed(m) && idx < |m.vlm| && ExpertIndex(m, idx).Some?
    ensures idx == ExpertIndex(m, idx).value * Ratio(m)
  {
  }

  /** Expert layers that the stride reaches by VLM number but not by expert number. */
  ghost predicate Reached(m: Model, e: int)
    requires m.selfEvery > 0 && WellFormed(m) && m.vlm != []
  {
    0 <= e < |m.expert| && (e * Ratio(m)) % m.selfEvery == 0 && e % m.selfEvery != 0
  }

  lemma MisfitFromMeaning(m: Model)
    requires WellFormed(m) && m.vlm != []
    ensures MisfitFrom(m, 0) <==>
      m.cross && m.expertWidth != m.kvWidth && m.selfEvery > 0 && exists e :: Reached(m, e)
  {
    if MisfitFrom(m, 0) {
      var idx :| 0 <= idx < |m.vlm| && MisfitAt(m, idx);
      NextToExpert(m, idx);
      var e := ExpertIndex(m, idx).value;
      MisfitMeaning(m, e);
      assert Reached(m, e);
    }
    if m.cross && m.expertWidth != m.kvWidth && m.selfEvery > 0 && exists e :: Reached(m, e) {
      var e :| Reached(m, e);
      MisfitMeaning(m, e);
    }
  }

  /******* Common factors of the stride and the ratio *******/

  /** A factor that the stride and the ratio share and that brings the stride inside the expert. */
  ghost predicate SharedFactor(g: int, n: nat, k: nat, e: nat) {
    g > 1 && n % g == 0 && k % g == 0 && n / g < e
  }

  lemma Cancel(a: nat, b: nat, c: nat)
    requires c > 0 && a * c == b * c
    ensures a == b
  {
    if a > b {
      MulGap(a, b, c);
    } else if b > a {
      MulGap(b, a, c);
    }
  }

  lemma DividesDifference(a: nat, b: nat, n: nat)
    requires n > 0 && a >= b && a % n == 0 && b % n == 0
    ensures (a - b) % n == 0
  {
    var q, p := a / n, b / n;
    assert a == q * n && b == p * n;
    if q < p {
      MulGap(p, q, n);
    }
    assert a - b == (q - p) * n;
    Multiple(q - p, n);
  }

  /** What is left of `a` by `b`, times `k`, is a multiple of `n` when `a` and `b` times `k` are. */
  lemma RemainderToo(a: nat, b: nat, k: nat, n: nat)
    requires n > 0 && b > 0 && (a * k) % n == 0 && (b * k) % n == 0
    ensures (a % b * k) % n == 0
  {
    var q, r := a / b, a % b;
    assert a == q * b + r;
    assert a * k == q * (b * k) + r * k;
    DividesProduct(b * k, q, n);
    assert q * (b * k) == b * k * q;
    DividesDifference(a * k, q * (b * k), n);
  }

  /** Euclid's descent: a multiplier below `n` that takes `k` to a multiple of `n` comes from a shared
      factor. */
  lemma {:induction false} FactorFrom(e: nat, k: nat, n: nat) returns (g: int)
    requires 0 < e < n && (e * k) % n == 0
    ensures SharedFactor(g, n, k, e + 1)
    decreases e
  {
    var r := n % e;
    if r == 0 {
      g := n / e;
      assert n == g * e;
      var t := e * k / n;
      assert e * k == t * n;
      assert k * e == (t * g) * e;
      Cancel(k, t * g, e);
      Multiple(t, g);
      assert n == e * g;
      Multiple(e, g);
    } else {
      Multiple(k, n);
      assert n * k == k * n;
      RemainderToo(n, e, k, n);
      g := FactorFrom(r, k, n);
    }
  }

  lemma ReachedIff(m: Model)
    requires WellFormed(m) && m.vlm != [] && m.selfEvery > 0
    ensures (exists e :: Reached(m, e)) <==> exists g :: SharedFactor(g, m.selfEvery, Ratio(m), |m.expert|)
  {
    var n, k := m.selfEvery, Ratio(m);
    hide Ratio;
    if exists e :: Reached(m, e) {
      var e :| Reached(m, e);
      Multiple(k, n);
      assert n * k == k * n;
      RemainderToo(e, n, k, n);
      var g := FactorFrom(e % n, k, n);
      Below(e, n);
      assert SharedFactor(g, n, k, |m.expert|);
    }
    if exists g :: SharedFactor(g, n, k, |m.expert|) {
      var g :| SharedFactor(g, n, k, |m.expert|);
      ReachedByFactor(g, n, k);
      assert Reached(m, n / g);
    }
  }

  lemma Below(e: nat, n: nat)
    requires n > 0
    ensures e % n <= e
  {
    assert e == (e / n) * n + e % n;
    assert (e / n) * n >= 0;
  }

  lemma ReachedByFactor(g: int, n: nat, k: nat)
    requires g > 1 && n > 0 && n % g == 0 && k % g == 0
    ensures 0 <= n / g < n && (n / g * k) % n == 0 && (n / g) % n != 0
  {
    var e, t := n / g, k / g;
    assert n == e * g && k == t * g;
    MulGap(g, 1, e);
    assert g * e == e * g;
    assert e * k == t * (e * g);
    Multiple(t, n);
    SmallRemainder(e, n);
  }

  lemma SmallRemainder(e: nat, n: nat)
    requires e < n
    ensures e % n == e
  {
    assert e == (e / n) * n + e % n;
    Unique(n, 0, e, e / n, e % n);
  }

  /******* When a configuration works *******/

  /** The joint pass fails exactly when the widths differ and the stride and the ratio share a factor that
      brings the stride inside the expert's depth. */
  lemma JointFailsIff(m: Model)
    requires WellFormed(m) && m.vlm != []
    ensures MisfitFrom(m, 0) <==>
      && m.cross && m.expertWidth != m.kvWidth && m.selfEvery > 0
      && exists g :: SharedFactor(g, m.selfEvery, Ratio(m), |m.expert|)
  {
    MisfitFromMeaning(m);
    if m.selfEvery > 0 {
      ReachedIff(m);
    }
  }

  ghost predicate SomeOrphan(m: Model)
    requires WellFormed(m)
  {
    exists idx :: 0 <= idx < |m.vlm| && Orphan(m, idx)
  }

  lemma OrphanIff(m: Model)
    requires WellFormed(m) && m.vlm != []
    ensures SomeOrphan(m) <==>
      if m.cross then 0 < m.selfEvery < |m.vlm| && m.selfEvery % Ratio(m) != 0 else |m.vlm| > |m.expert|
  {
    forall idx | 0 <= idx < |m.vlm| ensures ExpertAt(m, idx).None? <==> idx % Ratio(m) != 0 {
      ExpertAtMultiples(m, idx);
    }
    hide ExpertAt;
    if m.cross {
      CrossOrphanIff(m);
    } else {
      SelfOrphanIff(m);
    }
  }

  lemma CrossOrphanIff(m: Model)
    requires WellFormed(m) && m.vlm != [] && m.cross
    requires forall idx :: 0 <= idx < |m.vlm| ==> (ExpertAt(m, idx).None? <==> idx % Ratio(m) != 0)
    ensures SomeOrphan(m) <==> 0 < m.selfEvery < |m.vlm| && m.selfEvery % Ratio(m) != 0
  {
    hide ExpertAt, Ratio;
    if SomeOrphan(m) {
      var idx :| 0 <= idx < |m.vlm| && Orphan(m, idx);
      StrideFits(idx, m.selfEvery, Ratio(m));
    }
    if 0 < m.selfEvery < |m.vlm| && m.selfEvery % Ratio(m) != 0 {
      Multiple(1, m.selfEvery);
      assert Orphan(m, m.selfEvery);
    }
  }

  lemma SelfOrphanIff(m: Model)
    requires WellFormed(m) && m.vlm != [] && !m.cross
    requires forall idx :: 0 <= idx < |m.vlm| ==> (ExpertAt(m, idx).None? <==> idx % Ratio(m) != 0)
    ensures SomeOrphan(m) <==> |m.vlm| > |m.expert|
  {
    hide ExpertAt, Ratio;
    var k := Ratio(m);
    if k == 1 {
      assert |m.vlm| == |m.expert|;
    } else {
      MulGap(k, 1, |m.expert|);
      assert k * |m.expert| == |m.expert| * k;
      assert Orphan(m, 1);
    }
  }

  lemma BrokenParts(m: Model)
    requires WellFormed(m)
    ensures BrokenFrom(m, 0) <==> SomeOrphan(m) || MisfitFrom(m, 0)
  {
    hide Orphan, MisfitAt;
    if BrokenFrom(m, 0) {
      var i :| 0 <= i < |m.vlm| && Broken(m, i);
    }
    if SomeOrphan(m) {
      var i :| 0 <= i < |m.vlm| && Orphan(m, i);
      assert Broken(m, i);
    }
    MisfitIsBroken(m, 0);
  }

  lemma ReachedInsideDepth(e: nat, n: nat, k: nat, experts: nat)
    requires n > 0 && k > 0 && e < experts && (e * k) % n == 0 && e % n != 0
    ensures n < experts * k && k > 1
  {
    SmallRemainder(0, n);
    MulGap(e, 0, k);
    MulGap(experts, e, k);
    if e * k < n {
      SmallRemainder(e * k, n);
    }
  }

  lemma FactorInsideDepth(n: nat, k: nat, experts: nat)
    requires k > 0 && n % k == 0 && n < experts * k
    ensures n / k < experts
  {
    assert n == n / k * k;
    if n / k > experts {
      MulGap(n / k, experts, k);
    }
  }

  /** Some expert layer is reached by VLM number but not by expert number only if the depths differ and the
      stride is inside them; and it is, if the stride is a multiple of the ratio. */
  lemma ReachedNeedsUnequalDepths(m: Model)
    requires WellFormed(m) && m.vlm != [] && m.selfEvery > 0
    ensures (exists e :: Reached(m, e)) ==> m.selfEvery < |m.vlm| && Ratio(m) > 1
    ensures m.selfEvery < |m.vlm| && Ratio(m) > 1 && m.selfEvery % Ratio(m) == 0 ==> exists e :: Reached(m, e)
  {
    var n, k := m.selfEvery, Ratio(m);
    assert |m.vlm| == |m.expert| * k;
    hide Ratio;
    if exists e :: Reached(m, e) {
      var e :| Reached(m, e);
      ReachedInsideDepth(e, n, k, |m.expert|);
    }
    if n < |m.vlm| && k > 1 && n % k == 0 {
      Multiple(1, k);
      ReachedByFactor(k, n, k);
      FactorInsideDepth(n, k, |m.expert|);
      assert Reached(m, n / k);
    }
  }

  /** When sampling fails, in terms of the configuration.  A model with as many expert layers as VLM layers
      always works.  With fewer, pure self-attention fails, and cross-attention fails exactly when the stride
      is inside the depth, except for a stride that falls on expert layers while the two widths happen to be
      equal. */
  lemma BrokenIff(m: Model)
    requires WellFormed(m) && m.vlm != []
    ensures BrokenFrom(m, 0) <==>
      && |m.vlm| > |m.expert|
      && (m.cross ==> 0 < m.selfEvery < |m.vlm| && (m.expertWidth != m.kvWidth || m.selfEvery % Ratio(m) != 0))
  {
    BrokenParts(m);
    OrphanIff(m);
    MisfitFromMeaning(m);
    DeeperIff(m);
    if m.selfEvery > 0 {
      ReachedNeedsUnequalDepths(m);
      Multiple(m.selfEvery, 1);
    }
  }

  lemma DeeperIff(m: Model)
    requires WellFormed(m) && m.vlm != []
    ensures |m.vlm| > |m.expert| <==> Ratio(m) > 1
  {
    if Ratio(m) > 1 {
      MulGap(Ratio(m), 1, |m.expert|);
      assert Ratio(m) * |m.expert| == |m.expert| * Ratio(m);
    }
  }

  /** Sixteen VLM layers, eight expert layers and a stride of two: expert layer 1 takes the VLM's keys but
      attends over its own hidden states beside VLM layer 2.  Training and sampling both fail, although
      every self-attention layer has an expert layer. */
  lemma SixteenEightTwo(m: Model, prefix: Stream, pads: seq<bool>, atts: seq<bool>, suffix: Stream, w: nat)
    requires WellFormed(m) && |m.vlm| == 16 && |m.expert| == 8 && m.cross && m.selfEvery == 2
      && m.expertWidth != m.kvWidth
    requires |prefix| == |pads| == |atts| && w < |pads| && pads[w] && suffix != []
    ensures !SomeOrphan(m) && JointPass(m, prefix, pads, atts, suffix).None?
    ensures var fill := FillPass(m, prefix, pads, atts);
      fill.Some? && DenoisePass(m, pads, fill.value.past, suffix).None?
  {
    hide Forward, MisfitFrom, BrokenFrom, SomeOrphan;
    OrphanIff(m);
    JointFailsIff(m);
    assert SharedFactor(2, 2, Ratio(m), 8);
    MisfitIsBroken(m, 0);
    CachedPassEqualsJointPass(m, prefix, pads, atts, suffix, w);
  }

  /** With a stride of three the same depths train but cannot sample. */
  lemma SixteenEightThree(m: Model, prefix: Stream, pads: seq<bool>, atts: seq<bool>, suffix: Stream, w: nat)
    requires WellFormed(m) && |m.vlm| == 16 && |m.expert| == 8 && m.cross && m.selfEvery == 3
    requires |prefix| == |pads| == |atts| && w < |pads| && pads[w] && suffix != []
    ensures JointPass(m, prefix, pads, atts, suffix).Some?
    ensures var fill := FillPass(m, prefix, pads, atts);
      fill.Some? && DenoisePass(m, pads, fill.value.past, suffix).None?
  {
    hide Forward, MisfitFrom, BrokenFrom;
    BrokenIff(m);
    JointFailsIff(m);
    assert Ratio(m) == 2;
    forall g ensures !SharedFactor(g, 3, 2, 8) {
      if g > 3 {
        SmallRemainder(3, g);
      }
    }
    CachedPassEqualsJointPass(m, prefix, pads, atts, suffix, w);
  }
}
