/** Why the cache theorem needs one unpadded prefix token.  A row that sees nothing is averaged over all
    values by the eager kernel, and the joint pass has more values than the filling pass. */
module PaddedPrefix {
  import opened Wrappers
  import opened Vectors
  import opened CachedAttention
  import opened CacheCorrectness

  function First(v: Vec): real {
    if v == [] then 0.0 else v[0]
  }

  function Total(s: Stream): real {
    if s == [] then 0.0 else Total(s[..|s| - 1]) + First(s[|s| - 1])
  }

  function Mean(s: Stream): real {
    if s == [] then 0.0 else Total(s) / |s| as real
  }

  lemma {:induction false} TotalOfSame(n: nat, c: real)
    ensures Total(Same(n, [c])) == n as real * c
  {
    if n > 0 {
      assert Same(n, [c])[..n - 1] == Same(n - 1, [c]);
      TotalOfSame(n - 1, c);
    }
  }

  lemma MeanOfSame(n: nat, c: real)
    requires n > 0
    ensures Mean(Same(n, [c])) == c
  {
    TotalOfSame(n, c);
  }

  lemma MeanWithOne(n: nat)
    ensures Mean(Same(n, [0.0]) + [[1.0]]) == 1.0 / (n + 1) as real
  {
    var s := Same(n, [0.0]) + [[1.0]];
    assert s[..n] == Same(n, [0.0]);
    TotalOfSame(n, 0.0);
  }

  lemma {:induction false} NothingVisible(keys: Stream, values: Stream, row: seq<bool>)
    requires |keys| == |values| == |row| && forall i :: 0 <= i < |row| ==> !row[i]
    ensures Visible(keys, values, row) == []
  {
    if row != [] {
      var k := |row| - 1;
      NothingVisible(keys[..k], values[..k], row[..k]);
    }
  }

  const ZERO: Vec := [0.0]

  /** A layer whose queries and keys are zero, so that every key has the same weight, whose values are its
      inputs, and whose MLP adds nothing.  Rotary embedding leaves zero vectors alone. */
  const PLAIN: Layer := Layer(v => v, _ => ZERO, _ => ZERO, v => v, v => v, v => v, _ => ZERO)

  function Plus(a: Vec, b: Vec): Vec {
    if |a| == |b| then seq(|a|, i requires 0 <= i < |a| && |a| == |b| => a[i] + b[i]) else a
  }

  function Values(visible: seq<(Vec, Vec)>): Stream {
    seq(|visible|, i requires 0 <= i < |visible| => visible[i].1)
  }

  /** Two such layers, self-attention then cross-attention.  With equal weights attention is the average of
      the visible values; the eager kernel averages all values when none is visible. */
  const AVERAGING: Model := Model(
    vlm := [PLAIN, PLAIN],
    expert := [PLAIN, PLAIN],
    cross := true,
    selfEvery := 2,
    expertWidth := 1,
    kvWidth := 1,
    vlmNorm := v => v,
    expertNorm := v => v,
    rope := (v, _) => v,
    attend := (_, visible) => [Mean(Values(visible))],
    attendNone := (_, _, values) => [Mean(values)],
    add := (a, b) => Plus(a, b))

  lemma ModelIsSound()
    ensures WellFormed(AVERAGING) && |AVERAGING.vlm| == 2 && !BrokenFrom(AVERAGING, 0)
    ensures UsesSelfAttention(AVERAGING, 0, false) && !UsesSelfAttention(AVERAGING, 1, false)
    ensures ExpertAt(AVERAGING, 0) == ExpertAt(AVERAGING, 1) == Some(PLAIN)
    ensures !MisfitAt(AVERAGING, 0) && !MisfitAt(AVERAGING, 1) && !Broken(AVERAGING, 0) && !Broken(AVERAGING, 1)
  {
    assert forall i :: 0 <= i < 2 ==> !Broken(AVERAGING, i);
  }

  lemma PlainTokens(s: Stream, positions: seq<int>)
    requires |s| == |positions|
    ensures KvOf(AVERAGING, PLAIN, s, positions) == KeyValue(Same(|s|, ZERO), s)
    ensures QueriesOf(AVERAGING, PLAIN, s, positions) == Same(|s|, ZERO)
  {
  }

  lemma Averaged(q: Vec, keys: Stream, values: Stream, row: seq<bool>)
    requires |keys| == |values| == |row| && forall i :: 0 <= i < |row| ==> !row[i]
    ensures AttendRow(AVERAGING, q, keys, values, row) == [Mean(values)]
  {
    NothingVisible(keys, values, row);
  }

  /** A query that sees only the last key gets its value. */
  lemma LastOnly(q: Vec, keys: Stream, values: Stream, row: seq<bool>, x: real)
    requires |keys| == |values| == |row| > 0 && row[|row| - 1] && values[|row| - 1] == [x]
    requires forall i :: 0 <= i < |row| - 1 ==> !row[i]
    ensures AttendRow(AVERAGING, q, keys, values, row) == [x]
  {
    var k := |row| - 1;
    NothingVisible(keys[..k], values[..k], row[..k]);
    var visible := Visible(keys, values, row);
    assert visible == [(keys[k], [x])];
    assert Values(visible) == [[x]];
    assert Same(1, [x]) == [[x]];
    MeanOfSame(1, x);
  }

  ghost predicate AllPadded(pads: seq<bool>) {
    forall i :: 0 <= i < |pads| ==> !pads[i]
  }

  const ONE: Stream := [[1.0]]
  const TWO: Stream := [[2.0]]

  /** A block adds what attention gives to what it had. */
  lemma Added(h: real, a: real)
    ensures BlockToken(AVERAGING, PLAIN, [h], [a]) == [h + a]
  {
    assert Plus([a], [h]) == [h + a];
    assert Plus(ZERO, [h + a]) == [h + a];
  }

  lemma ParameterShapes(pads: seq<bool>, atts: seq<bool>)
    requires |pads| == |atts|
    ensures |PositionIds(pads)| == |pads| && MaskFits(MakeAtt2dMasks(pads, atts), |pads|, |pads|)
    ensures |JointPositions(pads, 1)| == |pads| + 1 && MaskFits(JointMask(pads, atts, 1), |pads| + 1, |pads| + 1)
    ensures |DenoisePositions(pads, 1)| == 1 && MaskFits(DenoiseMask(pads, 1), 1, |pads| + 1)
    ensures JointPositions(pads, 1)[|pads|..] == DenoisePositions(pads, 1)
    ensures JointMask(pads, atts, 1)[|pads|..] == DenoiseMask(pads, 1)
  {
    JointParts(pads, atts, 1);
  }

  /** Filling leaves a prefix of zeros as it is. */
  lemma FillStays(pads: seq<bool>, atts: seq<bool>)
    requires |pads| == |atts| > 0 && AllPadded(pads)
    ensures |PositionIds(pads)| == |pads| && MaskFits(MakeAtt2dMasks(pads, atts), |pads|, |pads|)
    ensures FillNext(AVERAGING, PLAIN, Same(|pads|, ZERO), PositionIds(pads), MakeAtt2dMasks(pads, atts))
      == Same(|pads|, ZERO)
  {
    var n, mask := |pads|, MakeAtt2dMasks(pads, atts);
    var zeros := Same(n, ZERO);
    ParameterShapes(pads, atts);
    PlainTokens(zeros, PositionIds(pads));
    MeanOfSame(n, 0.0);
    assert forall i, j :: 0 <= i < n && 0 <= j < n ==> !mask[i][j];
    hide AttendRow, BlockToken, KvOf, QueriesOf, MakeAtt2dMasks, PositionIds;
    forall i | 0 <= i < n ensures FillNext(AVERAGING, PLAIN, zeros, PositionIds(pads), mask)[i] == ZERO {
      Averaged(ZERO, zeros, zeros, mask[i]);
      Added(0.0, 0.0);
    }
  }

  /** The joint pass averages the suffix into it. */
  lemma JointMoves(pads: seq<bool>, atts: seq<bool>)
    requires |pads| == |atts| > 0 && AllPadded(pads)
    ensures WellFormed(AVERAGING) && |AVERAGING.vlm| == 2
    ensures |JointPositions(pads, 1)| == |pads| + 1 && MaskFits(JointMask(pads, atts, 1), |pads| + 1, |pads| + 1)
    ensures JointPrefixNext(AVERAGING, 0, Same(|pads|, ZERO), ONE, JointPositions(pads, 1), JointMask(pads, atts, 1))
         == Same(|pads|, [1.0 / (|pads| + 1) as real])
  {
    var n, pos, mask := |pads|, JointPositions(pads, 1), JointMask(pads, atts, 1);
    var zeros := Same(n, ZERO);
    ModelIsSound();
    ParameterShapes(pads, atts);
    PlainTokens(zeros, pos[..n]);
    PlainTokens(ONE, pos[n..]);
    MeanWithOne(n);
    NoRowSees(pads, atts);
    hide AttendRow, BlockToken, KvOf, QueriesOf, JointMask, JointPositions, ExpertAt;
    forall i | 0 <= i < n
      ensures JointPrefixNext(AVERAGING, 0, zeros, ONE, pos, mask)[i] == [1.0 / (n + 1) as real]
    {
      Averaged(ZERO, zeros + Same(1, ZERO), zeros + ONE, mask[i]);
      Added(0.0, 1.0 / (n + 1) as real);
    }
  }

  lemma NoRowSees(pads: seq<bool>, atts: seq<bool>)
    requires |pads| == |atts| && AllPadded(pads)
    ensures MaskFits(JointMask(pads, atts, 1), |pads| + 1, |pads| + 1)
    ensures forall i, j :: 0 <= i < |pads| && 0 <= j < |pads| + 1 ==> !JointMask(pads, atts, 1)[i][j]
  {
    ParameterShapes(pads, atts);
    forall i, j | 0 <= i < |pads| && 0 <= j < |pads| + 1 ensures !JointMask(pads, atts, 1)[i][j] {
      assert !(pads + Ones(1))[i];
    }
  }

  lemma DenoiseRow(pads: seq<bool>)
    ensures MaskFits(DenoiseMask(pads, 1), 1, |pads| + 1) && DenoiseMask(pads, 1)[0] == pads + [true]
  {
    ParameterShapes(pads, pads);
    assert DenoiseMask(pads, 1)[0][|pads|];
  }

  /** Self-attention doubles the suffix, which sees itself alone. */
  lemma SuffixDoubles(kv: KeyValue, pads: seq<bool>, positions: seq<int>)
    requires |kv.keys| == |kv.values| == |pads| && |positions| == 1 && AllPadded(pads)
    ensures WellFormed(AVERAGING) && |AVERAGING.vlm| == 2
    ensures MaskFits(DenoiseMask(pads, 1), 1, |pads| + 1)
    ensures SuffixNext(AVERAGING, 0, kv, ONE, positions, DenoiseMask(pads, 1)) == TWO
  {
    hide AttendRow, BlockToken, KvOf, QueriesOf, ExpertAt, DenoiseMask, UsesSelfAttention, WellFormed, Broken;
    ModelIsSound();
    DenoiseRow(pads);
    PlainTokens(ONE, positions);
    LastOnly(ZERO, kv.keys + Same(1, ZERO), kv.values + ONE, pads + [true], 1.0);
    Added(1.0, 1.0);
    assert SuffixNext(AVERAGING, 0, kv, ONE, positions, DenoiseMask(pads, 1))[0] == [2.0];
  }

  /** Cross-attention sees nothing, and adds the average of the prefix it was given. */
  lemma SuffixAverages(kv: KeyValue, pads: seq<bool>, positions: seq<int>)
    requires |kv.keys| == |kv.values| == |pads| && |positions| == 1 && AllPadded(pads)
    ensures WellFormed(AVERAGING) && |AVERAGING.vlm| == 2
    ensures MaskFits(DenoiseMask(pads, 1), 1, |pads| + 1)
    ensures SuffixNext(AVERAGING, 1, kv, TWO, positions, DenoiseMask(pads, 1)) == [[2.0 + Mean(kv.values)]]
  {
    ModelIsSound();
    DenoiseRow(pads);
    PlainTokens(TWO, FromZero(positions));
    assert (pads + [true])[..|pads|] == pads;
    assert MapVec(PLAIN.vProj, kv.values) == kv.values;
    Averaged(ZERO, MapVec(PLAIN.kProj, kv.keys), kv.values, pads);
    Added(2.0, Mean(kv.values));
    hide AttendRow, BlockToken, KvOf, QueriesOf, ExpertAt, DenoiseMask, MapVec, Mean;
    assert SuffixNext(AVERAGING, 1, kv, TWO, positions, DenoiseMask(pads, 1))[0] == [2.0 + Mean(kv.values)];
  }

  /******* The three passes *******/

  /** Two layers and the final norms, which change nothing. */
  lemma TwoLayers(st: Run, st1: Run, st2: Run, positions: seq<int>, mask: Mask, useCache: bool, fill: bool)
    requires WellFormed(AVERAGING) && |AVERAGING.vlm| == 2
    requires LayerStep(AVERAGING, 0, st, positions, mask, useCache, fill) == Some(st1)
    requires LayerStep(AVERAGING, 1, st1, positions, mask, useCache, fill) == Some(st2)
    ensures Forward(AVERAGING, st.inp, positions, mask, useCache, fill, st.past) == Some(st2)
  {
    hide LayerStep, WellFormed;
    assert RunLayers(AVERAGING, 2, st2, positions, mask, useCache, fill) == Some(st2);
    assert RunLayers(AVERAGING, 1, st1, positions, mask, useCache, fill) == Some(st2);
    NormKeeps(st2.inp.prefix);
    NormKeeps(st2.inp.suffix);
  }

  lemma NormKeeps(s: Option<Stream>)
    ensures FinalNorm(AVERAGING.vlmNorm, s) == s && FinalNorm(AVERAGING.expertNorm, s) == s
  {
    if s.Some? {
      assert MapVec(AVERAGING.vlmNorm, s.value) == s.value && MapVec(AVERAGING.expertNorm, s.value) == s.value;
    }
  }

  lemma FillRun(pads: seq<bool>, atts: seq<bool>) returns (cache: Cache)
    requires |pads| == |atts| > 0 && AllPadded(pads)
    ensures WellFormed(AVERAGING)
    ensures var fill := FillPass(AVERAGING, Same(|pads|, ZERO), pads, atts);
      fill.Some? && fill.value.past == Some(cache)
    ensures 0 in cache && |cache[0].keys| == |cache[0].values| == |pads|
    ensures 1 in cache && cache[1] == KeyValue(Same(|pads|, ZERO), Same(|pads|, ZERO))
  {
    hide LayerStep, PositionIds, MakeAtt2dMasks, KvOf, FillNext, Forward, WellFormed, UsesSelfAttention, ExpertAt;
    var m, zeros, pos, mask := AVERAGING, Same(|pads|, ZERO), PositionIds(pads), MakeAtt2dMasks(pads, atts);
    ModelIsSound();
    FillStays(pads, atts);
    PlainTokens(zeros, pos);
    var kv := KeyValue(zeros, zeros);
    cache := map[0 := kv][1 := kv];
    var inp := Inputs(Some(zeros), None);
    FillStep(m, 0, zeros, None, pos, mask);
    FillStep(m, 1, zeros, Some(map[0 := kv]), pos, mask);
    TwoLayers(Run(inp, None), Run(inp, Some(map[0 := kv])), Run(inp, Some(cache)), pos, mask, true, true);
  }

  lemma JointFirst(pads: seq<bool>, atts: seq<bool>)
    requires |pads| == |atts| > 0 && AllPadded(pads)
    ensures WellFormed(AVERAGING) && |AVERAGING.vlm| == 2
    ensures LayerStep(AVERAGING, 0, Run(Inputs(Some(Same(|pads|, ZERO)), Some(ONE)), None),
                      JointPositions(pads, 1), JointMask(pads, atts, 1), false, false)
      == Some(Run(Inputs(Some(Same(|pads|, [1.0 / (|pads| + 1) as real])), Some(TWO)), None))
  {
    hide LayerStep, JointPositions, JointMask, KvOf, SuffixNext, JointPrefixNext, MisfitAt, WellFormed, ExpertAt,
      UsesSelfAttention;
    var n, zeros, pos, mask := |pads|, Same(|pads|, ZERO), JointPositions(pads, 1), JointMask(pads, atts, 1);
    ModelIsSound();
    ParameterShapes(pads, atts);
    JointMoves(pads, atts);
    PlainTokens(zeros, pos[..n]);
    SuffixDoubles(KeyValue(zeros, zeros), pads, pos[n..]);
    JointStep(AVERAGING, 0, zeros, ONE, pos, mask);
  }

  lemma JointSecond(p: Stream, pads: seq<bool>, atts: seq<bool>) returns (p': Stream)
    requires |p| == |pads| == |atts| > 0 && AllPadded(pads)
    ensures WellFormed(AVERAGING) && |AVERAGING.vlm| == 2
    ensures LayerStep(AVERAGING, 1, Run(Inputs(Some(p), Some(TWO)), None),
                      JointPositions(pads, 1), JointMask(pads, atts, 1), false, false)
      == Some(Run(Inputs(Some(p'), Some([[2.0 + Mean(p)]])), None))
  {
    hide LayerStep, JointPositions, JointMask, KvOf, SuffixNext, JointPrefixNext, MisfitAt, WellFormed, ExpertAt,
      UsesSelfAttention, Mean;
    var n, pos, mask := |pads|, JointPositions(pads, 1), JointMask(pads, atts, 1);
    ModelIsSound();
    ParameterShapes(pads, atts);
    PlainTokens(p, pos[..n]);
    SuffixAverages(KeyValue(Same(n, ZERO), p), pads, pos[n..]);
    JointStep(AVERAGING, 1, p, TWO, pos, mask);
    p' := JointPrefixNext(AVERAGING, 1, p, TWO, pos, mask);
  }

  lemma JointRun(pads: seq<bool>, atts: seq<bool>)
    requires |pads| == |atts| > 0 && AllPadded(pads)
    ensures WellFormed(AVERAGING)
    ensures var joint := JointPass(AVERAGING, Same(|pads|, ZERO), pads, atts, ONE);
      joint.Some? && joint.value.inp.suffix == Some([[2.0 + 1.0 / (|pads| + 1) as real]])
  {
    hide LayerStep, JointPositions, JointMask, Forward, WellFormed, Mean;
    var c := 1.0 / (|pads| + 1) as real;
    var zeros, moved := Same(|pads|, ZERO), Same(|pads|, [c]);
    JointFirst(pads, atts);
    var p' := JointSecond(moved, pads, atts);
    MeanOfSame(|pads|, c);
    var before, between := Run(Inputs(Some(zeros), Some(ONE)), None), Run(Inputs(Some(moved), Some(TWO)), None);
    var after := Run(Inputs(Some(p'), Some([[2.0 + c]])), None);
    TwoLayers(before, between, after, JointPositions(pads, 1), JointMask(pads, atts, 1), false, false);
  }

  lemma DenoiseRun(pads: seq<bool>, cache: Cache)
    requires |pads| > 0 && AllPadded(pads)
    requires 0 in cache && |cache[0].keys| == |cache[0].values| == |pads|
    requires 1 in cache && cache[1] == KeyValue(Same(|pads|, ZERO), Same(|pads|, ZERO))
    ensures WellFormed(AVERAGING)
    ensures var r := DenoisePass(AVERAGING, pads, Some(cache), ONE); r.Some? && r.value.inp.suffix == Some(TWO)
  {
    hide LayerStep, DenoisePositions, DenoiseMask, SuffixNext, Broken, Mean, Forward, WellFormed, UsesSelfAttention,
      ExpertAt;
    var m, pos, mask := AVERAGING, DenoisePositions(pads, 1), DenoiseMask(pads, 1);
    ModelIsSound();
    ParameterShapes(pads, pads);
    SuffixDoubles(cache[0], pads, pos);
    SuffixAverages(cache[1], pads, pos);
    MeanOfSame(|pads|, 0.0);
    DenoiseStep(m, 0, ONE, cache, pos, mask);
    DenoiseStep(m, 1, TWO, cache, pos, mask);
    var before, after := Run(Inputs(None, Some(ONE)), Some(cache)), Run(Inputs(None, Some(TWO)), Some(cache));
    TwoLayers(before, after, after, pos, mask, true, false);
  }

  /** On a prefix of nothing but padding the two passes differ, by the share of the suffix in the average. */
  lemma AllPaddedDiffers(pads: seq<bool>, atts: seq<bool>)
    requires |pads| == |atts| > 0 && AllPadded(pads)
    ensures WellFormed(AVERAGING) && !CacheIsCorrect(AVERAGING, Same(|pads|, ZERO), pads, atts, ONE)
  {
    hide FillPass, JointPass, DenoisePass, Broken, MisfitAt, BrokenFrom, MisfitFrom, WellFormed, UsesSelfAttention,
      ExpertAt;
    var cache := FillRun(pads, atts);
    ModelIsSound();
    JointRun(pads, atts);
    DenoiseRun(pads, cache);
    ShareIsPositive(|pads|);
  }

  lemma ShareIsPositive(n: nat)
    ensures TWO != [[2.0 + 1.0 / (n + 1) as real]]
  {
    assert TWO[0][0] != [[2.0 + 1.0 / (n + 1) as real]][0][0];
  }

  /** The cache is correct for every model, prefix and suffix exactly when some prefix token is unpadded. */
  lemma UnpaddedTokenIff(pads: seq<bool>, atts: seq<bool>)
    requires |pads| == |atts| > 0
    ensures (exists w :: 0 <= w < |pads| && pads[w]) <==>
      forall m: Model, prefix: Stream, suffix: Stream :: WellFormed(m) && |prefix| == |pads| && suffix != [] ==>
        CacheIsCorrect(m, prefix, pads, atts, suffix)
  {
    hide CacheIsCorrect, WellFormed;
    if w :| 0 <= w < |pads| && pads[w] {
      forall m: Model, prefix: Stream, suffix: Stream | WellFormed(m) && |prefix| == |pads| && suffix != []
        ensures CacheIsCorrect(m, prefix, pads, atts, suffix)
      {
        CachedPassEqualsJointPass(m, prefix, pads, atts, suffix, w);
      }
    } else {
      AllPaddedDiffers(pads, atts);
    }
  }
}
