/** Filling the cache from the prefix and running only the suffix computes what the joint pass
    computes. */
module CacheCorrectness {
  import opened Wrappers
  import opened Vectors
  import opened CachedAttention

  /******* The two sets of masks and position ids *******/

  lemma {:induction false} CountAppend(a: seq<bool>, b: seq<bool>)
    ensures Count(a + b) == Count(a) + Count(b)
  {
    if b == [] {
      assert a + b == a;
    } else {
      var k := |b| - 1;
      assert (a + b)[..|a| + k] == a + b[..k];
      CountAppend(a, b[..k]);
    }
  }

  lemma {:induction false} CumSumAppend(a: seq<bool>, b: seq<bool>, i: nat)
    requires i < |a| + |b|
    ensures CumSum(a + b)[i] == if i < |a| then CumSum(a)[i] else Count(a) + CumSum(b)[i - |a|]
  {
    if i < |a| {
      assert (a + b)[..i + 1] == a[..i + 1];
    } else {
      assert (a + b)[..i + 1] == a + b[..i - |a| + 1];
      CountAppend(a, b[..i - |a| + 1]);
    }
  }

  lemma {:induction false} CountMonotone(b: seq<bool>, i: nat)
    requires i <= |b|
    ensures Count(b[..i]) <= Count(b)
  {
    assert b == b[..i] + b[i..];
    CountAppend(b[..i], b[i..]);
  }

  lemma {:induction false} CumSumOnesPositive(n: nat, j: nat)
    requires j < n
    ensures CumSum(Ones(n))[j] >= 1
  {
    assert Ones(n)[..j + 1][..j] == Ones(n)[..j];
  }

  /** Training builds one mask over both streams; inference builds one for the prefix and one for the
      suffix.  The prefix rows of the joint mask are the prefix mask followed by nothing visible, and
      its suffix rows are exactly the inference rows. */
  lemma MasksAgree(pads: seq<bool>, atts: seq<bool>, n: nat)
    requires |pads| == |atts|
    ensures var p, joint := |pads|, JointMask(pads, atts, n);
      && MaskFits(joint, p + n, p + n)
      && (forall i :: 0 <= i < p ==> joint[i][..p] == MakeAtt2dMasks(pads, atts)[i])
      && (forall i, j :: 0 <= i < p <= j < p + n ==> !joint[i][j])
      && (forall i :: 0 <= i < n ==> joint[p + i] == DenoiseMask(pads, n)[i])
  {
    hide JointMask, MakeAtt2dMasks, DenoiseMask;
    MaskShapes(pads, atts, n);
    forall i | 0 <= i < |pads|
      ensures JointMask(pads, atts, n)[i][..|pads|] == MakeAtt2dMasks(pads, atts)[i]
      ensures forall j :: |pads| <= j < |pads| + n ==> !JointMask(pads, atts, n)[i][j]
    {
      PrefixRow(pads, atts, n, i);
    }
    forall i | 0 <= i < n ensures JointMask(pads, atts, n)[|pads| + i] == DenoiseMask(pads, n)[i] {
      SuffixRow(pads, atts, n, i);
    }
  }

  lemma PrefixRow(pads: seq<bool>, atts: seq<bool>, n: nat, i: nat)
    requires |pads| == |atts| && i < |pads|
    ensures MaskFits(JointMask(pads, atts, n), |pads| + n, |pads| + n)
    ensures JointMask(pads, atts, n)[i][..|pads|] == MakeAtt2dMasks(pads, atts)[i]
    ensures forall j :: |pads| <= j < |pads| + n ==> !JointMask(pads, atts, n)[i][j]
  {
    hide JointMask, MakeAtt2dMasks, DenoiseMask;
    MaskShapes(pads, atts, n);
    forall j | 0 <= j < |pads| + n
      ensures JointMask(pads, atts, n)[i][j] == (j < |pads| && MakeAtt2dMasks(pads, atts)[i][j])
    {
      JointMaskAt(pads, atts, n, i, j);
    }
  }

  lemma SuffixRow(pads: seq<bool>, atts: seq<bool>, n: nat, i: nat)
    requires |pads| == |atts| && i < n
    ensures MaskFits(JointMask(pads, atts, n), |pads| + n, |pads| + n)
    ensures JointMask(pads, atts, n)[|pads| + i] == DenoiseMask(pads, n)[i]
  {
    hide JointMask, MakeAtt2dMasks, DenoiseMask;
    MaskShapes(pads, atts, n);
    forall j | 0 <= j < |pads| + n ensures JointMask(pads, atts, n)[|pads| + i][j] == DenoiseMask(pads, n)[i][j] {
      JointMaskAt(pads, atts, n, |pads| + i, j);
    }
  }

  lemma MaskShapes(pads: seq<bool>, atts: seq<bool>, n: nat)
    requires |pads| == |atts|
    ensures MaskFits(JointMask(pads, atts, n), |pads| + n, |pads| + n)
    ensures MaskFits(MakeAtt2dMasks(pads, atts), |pads|, |pads|) && MaskFits(DenoiseMask(pads, n), n, |pads| + n)
  {
    hide Count;
  }

  lemma JointMaskAt(pads: seq<bool>, atts: seq<bool>, n: nat, i: nat, j: nat)
    requires |pads| == |atts| && i < |pads| + n && j < |pads| + n
    ensures JointMask(pads, atts, n)[i][j]
      == if i < |pads| then j < |pads| && MakeAtt2dMasks(pads, atts)[i][j] else DenoiseMask(pads, n)[i - |pads|][j]
  {
    hide Count;
    var p := |pads|;
    CumSumAppend(atts, Ones(n), i);
    CumSumAppend(atts, Ones(n), j);
    if i < p { CountMonotone(atts, i + 1); } else { CumSumOnesPositive(n, i - p); }
    if j < p { CountMonotone(atts, j + 1); } else { CumSumOnesPositive(n, j - p); }
  }

  lemma PositionsAgree(pads: seq<bool>, n: nat)
    ensures JointPositions(pads, n) == PositionIds(pads) + DenoisePositions(pads, n)
  {
    forall i | 0 <= i < |pads| + n
      ensures JointPositions(pads, n)[i] == (PositionIds(pads) + DenoisePositions(pads, n))[i]
    {
      CumSumAppend(pads, Ones(n), i);
    }
  }

  lemma JointParts(pads: seq<bool>, atts: seq<bool>, n: nat)
    requires |pads| == |atts|
    ensures var p, jpos, jmask := |pads|, JointPositions(pads, n), JointMask(pads, atts, n);
      && |jpos| == p + n && jpos[..p] == PositionIds(pads) && jpos[p..] == DenoisePositions(pads, n)
      && MaskFits(jmask, p + n, p + n) && jmask[p..] == DenoiseMask(pads, n)
      && MaskFits(DenoiseMask(pads, n), n, p + n) && MaskFits(MakeAtt2dMasks(pads, atts), p, p)
      && |PositionIds(pads)| == p && |DenoisePositions(pads, n)| == n
  {
    MasksAgree(pads, atts, n);
    PositionsAgree(pads, n);
  }

  /******* Attention sees only unmasked keys *******/

  lemma {:induction false} VisibleAgrees(keys: Stream, values: Stream, keys': Stream, values': Stream, row: seq<bool>)
    requires |keys| == |values| == |keys'| == |values'| == |row|
    requires forall i :: 0 <= i < |row| && row[i] ==> keys[i] == keys'[i] && values[i] == values'[i]
    ensures Visible(keys, values, row) == Visible(keys', values', row)
  {
    if row != [] {
      var k := |row| - 1;
      VisibleAgrees(keys[..k], values[..k], keys'[..k], values'[..k], row[..k]);
    }
  }

  lemma {:induction false} VisibleIgnoresMaskedTail(keys: Stream, values: Stream, row: seq<bool>, p: nat)
    requires |keys| == |values| == |row| && p <= |row|
    requires forall i :: p <= i < |row| ==> !row[i]
    ensures Visible(keys, values, row) == Visible(keys[..p], values[..p], row[..p])
  {
    if |row| == p {
      assert keys[..p] == keys && values[..p] == values && row[..p] == row;
    } else {
      var k := |row| - 1;
      VisibleIgnoresMaskedTail(keys[..k], values[..k], row[..k], p);
      assert keys[..k][..p] == keys[..p] && values[..k][..p] == values[..p] && row[..k][..p] == row[..p];
    }
  }

  lemma {:induction false} VisibleNonEmpty(keys: Stream, values: Stream, row: seq<bool>, i: nat)
    requires |keys| == |values| == |row| && i < |row| && row[i]
    ensures Visible(keys, values, row) != []
  {
    var k := |row| - 1;
    if i < k {
      VisibleNonEmpty(keys[..k], values[..k], row[..k], i);
    }
  }

  /** Equal on every unpadded position. */
  ghost predicate Agree(s: Stream, t: Stream, pads: seq<bool>) {
    |s| == |t| == |pads| && forall i :: 0 <= i < |pads| && pads[i] ==> s[i] == t[i]
  }

  ghost predicate KvAgree(a: KeyValue, b: KeyValue, pads: seq<bool>) {
    Agree(a.keys, b.keys, pads) && Agree(a.values, b.values, pads)
  }

  /** A query that sees a prefix position `w`, and only unpadded ones, gets the same answer from two
      sets of prefix keys that agree on the unpadded positions; keys that follow must be equal. */
  lemma AttendAgrees(m: Model, q: Vec, a: KeyValue, b: KeyValue, own: KeyValue, row: seq<bool>, pads: seq<bool>, w: nat)
    requires KvAgree(a, b, pads) && |own.keys| == |own.values|
    requires |row| == |pads| + |own.keys| && w < |row| && row[w]
    requires forall i :: 0 <= i < |pads| && row[i] ==> pads[i]
    ensures AttendRow(m, q, a.keys + own.keys, a.values + own.values, row)
         == AttendRow(m, q, b.keys + own.keys, b.values + own.values, row)
  {
    VisibleAgrees(a.keys + own.keys, a.values + own.values, b.keys + own.keys, b.values + own.values, row);
    VisibleNonEmpty(a.keys + own.keys, a.values + own.values, row, w);
  }

  /** Keys that are all masked do not matter. */
  lemma AttendIgnoresMaskedTail(m: Model, q: Vec, keys: Stream, values: Stream, row: seq<bool>, p: nat, w: nat)
    requires |keys| == |values| == |row| && w < p <= |row| && row[w]
    requires forall i :: p <= i < |row| ==> !row[i]
    ensures AttendRow(m, q, keys, values, row) == AttendRow(m, q, keys[..p], values[..p], row[..p])
  {
    VisibleIgnoresMaskedTail(keys, values, row, p);
    VisibleNonEmpty(keys, values, row, w);
  }

  /******* One layer of each pass, in closed form *******/

  ghost function KvOf(m: Model, layer: Layer, s: Stream, positions: seq<int>): KeyValue
    requires |s| == |positions|
  {
    KeyValue(ApplyRope(m, Projected(layer, layer.kProj, s), positions), Projected(layer, layer.vProj, s))
  }

  ghost function QueriesOf(m: Model, layer: Layer, s: Stream, positions: seq<int>): (r: Stream)
    requires |s| == |positions|
    ensures |r| == |s|
  {
    ApplyRope(m, Projected(layer, layer.qProj, s), positions)
  }

  ghost function FillNext(m: Model, layer: Layer, s: Stream, positions: seq<int>, mask: Mask): (r: Stream)
    requires |s| == |positions| && MaskFits(mask, |s|, |s|)
    ensures |r| == |s|
  {
    var kv := KvOf(m, layer, s, positions);
    seq(|s|, i requires 0 <= i < |s| =>
      BlockToken(m, layer, s[i], AttendRow(m, QueriesOf(m, layer, s, positions)[i], kv.keys, kv.values, mask[i])))
  }

  /** A layer in which only the prefix takes part. */
  lemma JoinedPrefix(m: Model, idx: nat, p: Stream, suffix: Option<Stream>)
    requires WellFormed(m) && idx < |m.vlm| && (suffix.None? || ExpertAt(m, idx).None?)
    ensures var inp, layer := Inputs(Some(p), suffix), m.vlm[idx];
      && JoinedQueries(m, idx, inp) == Projected(layer, layer.qProj, p)
      && JoinedKeys(m, idx, inp) == Projected(layer, layer.kProj, p)
      && JoinedValues(m, idx, inp) == Projected(layer, layer.vProj, p)
  {
    hide Projected, ExpertAt;
  }

  /** A layer in which only the suffix takes part. */
  lemma JoinedSuffix(m: Model, idx: nat, s: Stream)
    requires WellFormed(m) && idx < |m.vlm| && ExpertAt(m, idx).Some?
    ensures var inp, e := Inputs(None, Some(s)), ExpertAt(m, idx).value;
      && JoinedQueries(m, idx, inp) == Projected(e, e.qProj, s)
      && JoinedKeys(m, idx, inp) == Projected(e, e.kProj, s)
      && JoinedValues(m, idx, inp) == Projected(e, e.vProj, s)
  {
    hide Projected, ExpertAt;
  }

  lemma JoinedBoth(m: Model, idx: nat, p: Stream, s: Stream)
    requires WellFormed(m) && idx < |m.vlm| && ExpertAt(m, idx).Some?
    ensures var inp, layer, e := Inputs(Some(p), Some(s)), m.vlm[idx], ExpertAt(m, idx).value;
      && JoinedQueries(m, idx, inp) == Projected(layer, layer.qProj, p) + Projected(e, e.qProj, s)
      && JoinedKeys(m, idx, inp) == Projected(layer, layer.kProj, p) + Projected(e, e.kProj, s)
      && JoinedValues(m, idx, inp) == Projected(layer, layer.vProj, p) + Projected(e, e.vProj, s)
  {
    hide Projected, ExpertAt;
  }

  lemma ProjectedLength(layer: Layer, proj: Vec -> Vec, s: Stream)
    ensures |Projected(layer, proj, s)| == |s|
  {
  }

  lemma FillBlock(m: Model, layer: Layer, s: Stream, positions: seq<int>, mask: Mask)
    requires |s| == |positions| && MaskFits(mask, |s|, |s|)
    ensures var att := Attention(m, mask, QueriesOf(m, layer, s, positions), KvOf(m, layer, s, positions));
      att.Some? && Block(m, layer, s, att, 0) == Some(FillNext(m, layer, s, positions, mask))
  {
    hide AttendRow, BlockToken;
    var att := Attention(m, mask, QueriesOf(m, layer, s, positions), KvOf(m, layer, s, positions));
    assert Block(m, layer, s, att, 0).value == FillNext(m, layer, s, positions, mask);
  }

  lemma FillStep(m: Model, idx: nat, s: Stream, past: Option<Cache>, positions: seq<int>, mask: Mask)
    requires WellFormed(m) && idx < |m.vlm|
    requires |s| == |positions| && MaskFits(mask, |s|, |s|)
    requires s != []
    ensures var before: Cache := if past.Some? then past.value else map[];
      LayerStep(m, idx, Run(Inputs(Some(s), None), past), positions, mask, true, true)
      == Some(Run(Inputs(Some(FillNext(m, m.vlm[idx], s, positions, mask)), None),
                  Some(before[idx := KvOf(m, m.vlm[idx], s, positions)])))
  {
    hide Attention, Block, Projected, ApplyRope, FillNext, ExpertAt, Misfit, JoinedQueries, JoinedKeys, JoinedValues,
      WellFormed, CrossAttentionLayer;
    var layer := m.vlm[idx];
    JoinedPrefix(m, idx, s, None);
    ProjectedLength(layer, layer.qProj, s);
    ProjectedLength(layer, layer.kProj, s);
    FillBlock(m, layer, s, positions, mask);
  }

  /** The suffix after one layer, given the keys and values of the prefix at that layer. */
  ghost function SuffixNext(m: Model, idx: nat, kv: KeyValue, s: Stream, positions: seq<int>, mask: Mask): (r: Stream)
    requires WellFormed(m) && idx < |m.vlm|
    requires |kv.keys| == |kv.values|
    requires |s| == |positions| && MaskFits(mask, |s|, |kv.keys| + |s|)
    ensures |r| == |s|
  {
    if ExpertAt(m, idx).None? then s
    else
      var e := ExpertAt(m, idx).value;
      if UsesSelfAttention(m, idx, false) then
        var own := KvOf(m, e, s, positions);
        seq(|s|, i requires 0 <= i < |s| =>
          BlockToken(m, e, s[i], AttendRow(m, QueriesOf(m, e, s, positions)[i],
                                           kv.keys + own.keys, kv.values + own.values, mask[i])))
      else
        var seen := KeyValue(MapVec(e.kProj, kv.keys), MapVec(e.vProj, kv.values));
        seq(|s|, i requires 0 <= i < |s| =>
          BlockToken(m, e, s[i], AttendRow(m, QueriesOf(m, e, s, FromZero(positions))[i],
                                           seen.keys, seen.values, mask[i][..|kv.keys|])))
  }

  lemma SuffixNextAgrees(m: Model, idx: nat, a: KeyValue, b: KeyValue, s: Stream, positions: seq<int>,
      pads: seq<bool>, w: nat)
    requires WellFormed(m) && idx < |m.vlm|
    requires KvAgree(a, b, pads) && w < |pads| && pads[w]
    requires |s| == |positions|
    ensures SuffixNext(m, idx, a, s, positions, DenoiseMask(pads, |s|))
         == SuffixNext(m, idx, b, s, positions, DenoiseMask(pads, |s|))
  {
    hide AttendRow, BlockToken, ExpertAt, UsesSelfAttention, WellFormed;
    var mask := DenoiseMask(pads, |s|);
    if ExpertAt(m, idx).Some? {
      var e := ExpertAt(m, idx).value;
      forall i | 0 <= i < |s|
        ensures SuffixNext(m, idx, a, s, positions, mask)[i] == SuffixNext(m, idx, b, s, positions, mask)[i]
      {
        if UsesSelfAttention(m, idx, false) {
          AttendAgrees(m, QueriesOf(m, e, s, positions)[i], a, b, KvOf(m, e, s, positions), mask[i], pads, w);
        } else {
          var a' := KeyValue(MapVec(e.kProj, a.keys), MapVec(e.vProj, a.values));
          var b' := KeyValue(MapVec(e.kProj, b.keys), MapVec(e.vProj, b.values));
          assert mask[i][..|pads|] == pads;
          AttendAgrees(m, QueriesOf(m, e, s, FromZero(positions))[i], a', b', KeyValue([], []), pads, pads, w);
          assert a'.keys + [] == a'.keys && a'.values + [] == a'.values;
          assert b'.keys + [] == b'.keys && b'.values + [] == b'.values;
        }
      }
    }
  }

  /** A layer that attends over the suffix itself but has no expert layer: `forward_attn_layer` then
      has nothing to concatenate when the prefix is absent. */
  predicate Orphan(m: Model, idx: nat)
    requires WellFormed(m) && idx < |m.vlm|
  {
    UsesSelfAttention(m, idx, false) && ExpertAt(m, idx).None?
  }

  /** A layer whose expert projections do not take what the layer feeds them. */
  predicate MisfitAt(m: Model, idx: nat)
    requires WellFormed(m) && idx < |m.vlm|
  {
    Misfit(m, idx, UsesSelfAttention(m, idx, false))
  }

  predicate Broken(m: Model, idx: nat)
    requires WellFormed(m) && idx < |m.vlm|
  {
    Orphan(m, idx) || MisfitAt(m, idx)
  }

  lemma SuffixSelfBlock(m: Model, idx: nat, kv: KeyValue, s: Stream, positions: seq<int>, mask: Mask)
    requires WellFormed(m) && idx < |m.vlm| && |kv.keys| == |kv.values|
    requires |s| == |positions| && MaskFits(mask, |s|, |kv.keys| + |s|)
    requires UsesSelfAttention(m, idx, false) && ExpertAt(m, idx).Some?
    ensures var e := ExpertAt(m, idx).value;
      var own := KvOf(m, e, s, positions);
      var all := KeyValue(kv.keys + own.keys, kv.values + own.values);
      var att := Attention(m, mask, QueriesOf(m, e, s, positions), all);
      att.Some? && Block(m, e, s, att, 0) == Some(SuffixNext(m, idx, kv, s, positions, mask))
  {
    hide AttendRow, BlockToken, ExpertAt, UsesSelfAttention;
    var e := ExpertAt(m, idx).value;
    var own := KvOf(m, e, s, positions);
    var att := Attention(m, mask, QueriesOf(m, e, s, positions), KeyValue(kv.keys + own.keys, kv.values + own.values));
    assert Block(m, e, s, att, 0).value == SuffixNext(m, idx, kv, s, positions, mask);
  }

  /** Cross-attention uses the last rows of whatever mask it is given. */
  lemma SuffixCrossBlock(m: Model, idx: nat, kv: KeyValue, s: Stream, positions: seq<int>, mask: Mask)
    requires WellFormed(m) && idx < |m.vlm| && |kv.keys| == |kv.values|
    requires |s| == |positions| && s != [] && |mask| >= |s|
    requires MaskFits(mask[|mask| - |s|..], |s|, |kv.keys| + |s|)
    requires !UsesSelfAttention(m, idx, false) && ExpertAt(m, idx).Some?
    ensures var e := ExpertAt(m, idx).value;
      var att := ExpertCross(m, e, s, positions, mask, kv);
      att.Some? && Block(m, e, s, att, 0) == Some(SuffixNext(m, idx, kv, s, positions, mask[|mask| - |s|..]))
  {
    hide AttendRow, BlockToken, ExpertAt, UsesSelfAttention, ApplyRope, MapVec;
    var e, rows := ExpertAt(m, idx).value, LastRows(mask, |s|, |kv.keys|);
    assert MaskFits(rows, |s|, |kv.keys|);
    assert forall i :: 0 <= i < |s| ==> rows[i] == mask[|mask| - |s|..][i][..|kv.keys|];
    var att := ExpertCross(m, e, s, positions, mask, kv);
    assert Block(m, e, s, att, 0).value == SuffixNext(m, idx, kv, s, positions, mask[|mask| - |s|..]);
  }

  lemma DenoiseSelfStep(m: Model, idx: nat, s: Stream, cache: Cache, positions: seq<int>, mask: Mask)
    requires WellFormed(m) && idx < |m.vlm|
    requires idx in cache && |cache[idx].keys| == |cache[idx].values|
    requires |s| == |positions| && MaskFits(mask, |s|, |cache[idx].keys| + |s|)
    requires UsesSelfAttention(m, idx, false) && ExpertAt(m, idx).Some?
    requires s != [] && !Misfit(m, idx, true)
    ensures LayerStep(m, idx, Run(Inputs(None, Some(s)), Some(cache)), positions, mask, true, false)
      == Some(Run(Inputs(None, Some(SuffixNext(m, idx, cache[idx], s, positions, mask))), Some(cache)))
  {
    hide Attention, Block, Projected, ApplyRope, SuffixNext, ExpertAt, Misfit, JoinedQueries, JoinedKeys, JoinedValues,
      WellFormed, CrossAttentionLayer, UsesSelfAttention;
    var e := ExpertAt(m, idx).value;
    JoinedSuffix(m, idx, s);
    ProjectedLength(e, e.qProj, s);
    ProjectedLength(e, e.kProj, s);
    SuffixSelfBlock(m, idx, cache[idx], s, positions, mask);
  }

  lemma DenoiseCrossStep(m: Model, idx: nat, s: Stream, cache: Cache, positions: seq<int>, mask: Mask)
    requires WellFormed(m) && idx < |m.vlm|
    requires idx in cache && |cache[idx].keys| == |cache[idx].values|
    requires |s| == |positions| && MaskFits(mask, |s|, |cache[idx].keys| + |s|)
    requires !UsesSelfAttention(m, idx, false) && ExpertAt(m, idx).Some?
    requires s != [] && !Misfit(m, idx, false)
    ensures LayerStep(m, idx, Run(Inputs(None, Some(s)), Some(cache)), positions, mask, true, false)
      == Some(Run(Inputs(None, Some(SuffixNext(m, idx, cache[idx], s, positions, mask))), Some(cache)))
  {
    hide ExpertCross, Block, SuffixNext, ExpertAt, Misfit, WellFormed, SelfAttentionLayer, UsesSelfAttention;
    assert cache != map[];
    assert mask[|mask| - |s|..] == mask;
    SuffixCrossBlock(m, idx, cache[idx], s, positions, mask);
  }

  lemma DenoiseStep(m: Model, idx: nat, s: Stream, cache: Cache, positions: seq<int>, mask: Mask)
    requires WellFormed(m) && idx < |m.vlm|
    requires idx in cache && |cache[idx].keys| == |cache[idx].values|
    requires |s| == |positions| && MaskFits(mask, |s|, |cache[idx].keys| + |s|)
    requires s != []
    ensures LayerStep(m, idx, Run(Inputs(None, Some(s)), Some(cache)), positions, mask, true, false)
      == if Broken(m, idx) then None
         else Some(Run(Inputs(None, Some(SuffixNext(m, idx, cache[idx], s, positions, mask))), Some(cache)))
  {
    if ExpertAt(m, idx).None? || MisfitAt(m, idx) {
      hide Joined, Attention, ExpertCross;
      assert cache != map[];
    } else {
      hide LayerStep;
      if UsesSelfAttention(m, idx, false) {
        DenoiseSelfStep(m, idx, s, cache, positions, mask);
      } else {
        DenoiseCrossStep(m, idx, s, cache, positions, mask);
      }
    }
  }

  ghost function JointPrefixNext(m: Model, idx: nat, p: Stream, s: Stream, positions: seq<int>, mask: Mask): (r: Stream)
    requires WellFormed(m) && idx < |m.vlm|
    requires |positions| == |p| + |s| && MaskFits(mask, |p| + |s|, |p| + |s|)
    ensures |r| == |p|
  {
    var layer, kv, n := m.vlm[idx], KvOf(m, m.vlm[idx], p, positions[..|p|]), |p|;
    seq(n, i requires 0 <= i < n =>
      var q := QueriesOf(m, layer, p, positions[..n])[i];
      BlockToken(m, layer, p[i],
        if UsesSelfAttention(m, idx, false) && ExpertAt(m, idx).Some? then
          var own := KvOf(m, ExpertAt(m, idx).value, s, positions[n..]);
          AttendRow(m, q, kv.keys + own.keys, kv.values + own.values, mask[i])
        else AttendRow(m, q, kv.keys, kv.values, mask[i][..n])))
  }

  lemma JointStep(m: Model, idx: nat, p: Stream, s: Stream, positions: seq<int>, mask: Mask)
    requires WellFormed(m) && idx < |m.vlm|
    requires |positions| == |p| + |s| && MaskFits(mask, |p| + |s|, |p| + |s|)
    requires p != [] && s != []
    ensures LayerStep(m, idx, Run(Inputs(Some(p), Some(s)), None), positions, mask, false, false)
      == if MisfitAt(m, idx) then None
         else Some(Run(Inputs(Some(JointPrefixNext(m, idx, p, s, positions, mask)),
                              Some(JointSuffixNext(m, idx, p, s, positions, mask))), None))
  {
    if MisfitAt(m, idx) {
      hide Joined, Attention, ExpertCross, ExpertAt;
    } else if UsesSelfAttention(m, idx, false) && ExpertAt(m, idx).Some? {
      JointSelfStep(m, idx, p, s, positions, mask);
    } else if UsesSelfAttention(m, idx, false) {
      JointOrphanStep(m, idx, p, s, positions, mask);
    } else {
      JointCrossStep(m, idx, p, s, positions, mask);
    }
  }

  /** The suffix after a joint layer: the function of the denoising pass, on the prefix's own keys. */
  ghost function JointSuffixNext(m: Model, idx: nat, p: Stream, s: Stream, positions: seq<int>, mask: Mask): (r: Stream)
    requires WellFormed(m) && idx < |m.vlm|
    requires |positions| == |p| + |s| && MaskFits(mask, |p| + |s|, |p| + |s|)
    ensures |r| == |s|
  {
    SuffixNext(m, idx, KvOf(m, m.vlm[idx], p, positions[..|p|]), s, positions[|p|..], mask[|p|..])
  }

  lemma JointSelfStep(m: Model, idx: nat, p: Stream, s: Stream, positions: seq<int>, mask: Mask)
    requires WellFormed(m) && idx < |m.vlm|
    requires |positions| == |p| + |s| && MaskFits(mask, |p| + |s|, |p| + |s|)
    requires UsesSelfAttention(m, idx, false) && ExpertAt(m, idx).Some?
    requires p != [] && s != [] && !Misfit(m, idx, true)
    ensures LayerStep(m, idx, Run(Inputs(Some(p), Some(s)), None), positions, mask, false, false)
      == Some(Run(Inputs(Some(JointPrefixNext(m, idx, p, s, positions, mask)),
                         Some(JointSuffixNext(m, idx, p, s, positions, mask))), None))
  {
    hide SelfAttentionLayer, CrossAttentionLayer, AfterAttention, JointSelfOutput, JointPrefixNext, JointSuffixNext,
      ExpertAt, Misfit, WellFormed, UsesSelfAttention;
    JointSelfAttention(m, idx, p, s, positions, mask);
    JointSelfBlocks(m, idx, p, s, positions, mask);
  }

  lemma JointSelfSuffixToken(m: Model, idx: nat, p: Stream, s: Stream, positions: seq<int>, mask: Mask, i: nat)
    requires WellFormed(m) && idx < |m.vlm| && i < |s|
    requires |positions| == |p| + |s| && MaskFits(mask, |p| + |s|, |p| + |s|)
    requires UsesSelfAttention(m, idx, false) && ExpertAt(m, idx).Some?
    ensures JointSuffixNext(m, idx, p, s, positions, mask)[i]
      == BlockToken(m, ExpertAt(m, idx).value, s[i], JointSelfOutput(m, idx, p, s, positions, mask)[|p| + i])
  {
    hide AttendRow, BlockToken, ExpertAt, UsesSelfAttention, KvOf, QueriesOf, WellFormed;
    assert mask[|p|..][i] == mask[|p| + i];
  }

  lemma JointSelfSuffixBlock(m: Model, idx: nat, p: Stream, s: Stream, positions: seq<int>, mask: Mask)
    requires WellFormed(m) && idx < |m.vlm|
    requires |positions| == |p| + |s| && MaskFits(mask, |p| + |s|, |p| + |s|)
    requires UsesSelfAttention(m, idx, false) && ExpertAt(m, idx).Some?
    ensures Block(m, ExpertAt(m, idx).value, s, Some(JointSelfOutput(m, idx, p, s, positions, mask)), |p|)
      == Some(JointSuffixNext(m, idx, p, s, positions, mask))
  {
    hide BlockToken, ExpertAt, UsesSelfAttention, WellFormed, JointSelfOutput, JointSuffixNext, MaskFits;
    var n, e, att := |p|, ExpertAt(m, idx).value, JointSelfOutput(m, idx, p, s, positions, mask);
    var suffix := JointSuffixNext(m, idx, p, s, positions, mask);
    var block := Block(m, e, s, Some(att), n).value;
    forall i | 0 <= i < |s| ensures block[i] == suffix[i] {
      JointSelfSuffixToken(m, idx, p, s, positions, mask, i);
    }
    assert block == suffix;
  }

  lemma JointSelfPrefixBlock(m: Model, idx: nat, p: Stream, s: Stream, positions: seq<int>, mask: Mask)
    requires WellFormed(m) && idx < |m.vlm|
    requires |positions| == |p| + |s| && MaskFits(mask, |p| + |s|, |p| + |s|)
    requires UsesSelfAttention(m, idx, false) && ExpertAt(m, idx).Some?
    ensures Block(m, m.vlm[idx], p, Some(JointSelfOutput(m, idx, p, s, positions, mask)), 0)
      == Some(JointPrefixNext(m, idx, p, s, positions, mask))
  {
    hide AttendRow, BlockToken, ExpertAt, UsesSelfAttention, KvOf, QueriesOf, WellFormed;
    var att := JointSelfOutput(m, idx, p, s, positions, mask);
    assert Block(m, m.vlm[idx], p, Some(att), 0).value == JointPrefixNext(m, idx, p, s, positions, mask);
  }

  lemma JointSelfBlocks(m: Model, idx: nat, p: Stream, s: Stream, positions: seq<int>, mask: Mask)
    requires WellFormed(m) && idx < |m.vlm|
    requires |positions| == |p| + |s| && MaskFits(mask, |p| + |s|, |p| + |s|)
    requires UsesSelfAttention(m, idx, false) && ExpertAt(m, idx).Some?
    ensures AfterAttention(m, idx, Inputs(Some(p), Some(s)), [Some(JointSelfOutput(m, idx, p, s, positions, mask))])
      == Some(Inputs(Some(JointPrefixNext(m, idx, p, s, positions, mask)),
                     Some(JointSuffixNext(m, idx, p, s, positions, mask))))
  {
    hide Block, JointSelfOutput, JointPrefixNext, JointSuffixNext, ExpertAt, UsesSelfAttention, WellFormed;
    JointSelfPrefixBlock(m, idx, p, s, positions, mask);
    JointSelfSuffixBlock(m, idx, p, s, positions, mask);
  }

  ghost function JointSelfOutput(m: Model, idx: nat, p: Stream, s: Stream, positions: seq<int>, mask: Mask): (r: Stream)
    requires WellFormed(m) && idx < |m.vlm| && ExpertAt(m, idx).Some?
    requires |positions| == |p| + |s| && MaskFits(mask, |p| + |s|, |p| + |s|)
    ensures |r| == |p| + |s|
  {
    var n, layer, e := |p|, m.vlm[idx], ExpertAt(m, idx).value;
    var kv, own := KvOf(m, layer, p, positions[..n]), KvOf(m, e, s, positions[n..]);
    seq(n + |s|, i requires 0 <= i < n + |s| =>
      var q := if i < n then QueriesOf(m, layer, p, positions[..n])[i] else QueriesOf(m, e, s, positions[n..])[i - n];
      AttendRow(m, q, kv.keys + own.keys, kv.values + own.values, mask[i]))
  }

  lemma JointSelfAttention(m: Model, idx: nat, p: Stream, s: Stream, positions: seq<int>, mask: Mask)
    requires WellFormed(m) && idx < |m.vlm| && ExpertAt(m, idx).Some?
    requires |positions| == |p| + |s| && MaskFits(mask, |p| + |s|, |p| + |s|)
    requires p != [] && s != [] && !Misfit(m, idx, true)
    ensures SelfAttentionLayer(m, idx, Inputs(Some(p), Some(s)), positions, mask, false, false, None)
      == Some(Attended([Some(JointSelfOutput(m, idx, p, s, positions, mask))], None))
  {
    hide Attention, Projected, ApplyRope, ExpertAt, Misfit, JoinedQueries, JoinedKeys, JoinedValues, WellFormed,
      JointSelfOutput;
    var layer, e, n := m.vlm[idx], ExpertAt(m, idx).value, |p|;
    JoinedBoth(m, idx, p, s);
    ProjectedLength(layer, layer.qProj, p);
    ProjectedLength(layer, layer.kProj, p);
    ProjectedLength(e, e.qProj, s);
    ProjectedLength(e, e.kProj, s);
    RopeAppend(m, Projected(layer, layer.qProj, p), Projected(e, e.qProj, s), positions);
    RopeAppend(m, Projected(layer, layer.kProj, p), Projected(e, e.kProj, s), positions);
    var kv, own := KvOf(m, layer, p, positions[..n]), KvOf(m, e, s, positions[n..]);
    var q := QueriesOf(m, layer, p, positions[..n]) + QueriesOf(m, e, s, positions[n..]);
    JointSelfOutputIsAttention(m, idx, p, s, positions, mask, q, KeyValue(kv.keys + own.keys, kv.values + own.values));
  }

  lemma JointSelfOutputIsAttention(m: Model, idx: nat, p: Stream, s: Stream, positions: seq<int>, mask: Mask,
      q: Stream, all: KeyValue)
    requires WellFormed(m) && idx < |m.vlm| && ExpertAt(m, idx).Some?
    requires |positions| == |p| + |s| && MaskFits(mask, |p| + |s|, |p| + |s|)
    requires q == QueriesOf(m, m.vlm[idx], p, positions[..|p|])
      + QueriesOf(m, ExpertAt(m, idx).value, s, positions[|p|..])
    requires var kv := KvOf(m, m.vlm[idx], p, positions[..|p|]);
      var own := KvOf(m, ExpertAt(m, idx).value, s, positions[|p|..]);
      all == KeyValue(kv.keys + own.keys, kv.values + own.values)
    ensures Attention(m, mask, q, all) == Some(JointSelfOutput(m, idx, p, s, positions, mask))
  {
    hide AttendRow;
    assert Attention(m, mask, q, all).value == JointSelfOutput(m, idx, p, s, positions, mask);
  }

  lemma RopeAppend(m: Model, a: Stream, b: Stream, positions: seq<int>)
    requires |positions| == |a| + |b|
    ensures ApplyRope(m, a + b, positions) == ApplyRope(m, a, positions[..|a|]) + ApplyRope(m, b, positions[|a|..])
  {
  }

  /** What the prefix attends to when it is alone: the first rows and columns of the mask. */
  ghost function PrefixAlone(m: Model, layer: Layer, p: Stream, positions: seq<int>, mask: Mask): (r: Stream)
    requires |positions| >= |p| && |mask| >= |p| && (forall i :: 0 <= i < |p| ==> |mask[i]| >= |p|)
    ensures |r| == |p|
  {
    var n, kv := |p|, KvOf(m, layer, p, positions[..|p|]);
    seq(n, i requires 0 <= i < n =>
      AttendRow(m, QueriesOf(m, layer, p, positions[..n])[i], kv.keys, kv.values, mask[i][..n]))
  }

  lemma PrefixAloneIsAttention(m: Model, layer: Layer, p: Stream, positions: seq<int>, mask: Mask)
    requires |positions| >= |p| && |mask| >= |p| && (forall i :: 0 <= i < |p| ==> |mask[i]| >= |p|)
    ensures var n := |p|;
      Attention(m, Rows(mask, n, n), QueriesOf(m, layer, p, positions[..n]), KvOf(m, layer, p, positions[..n]))
      == Some(PrefixAlone(m, layer, p, positions, mask))
  {
    hide AttendRow;
    var n := |p|;
    var kv, msk := KvOf(m, layer, p, positions[..n]), Rows(mask, n, n);
    assert MaskFits(msk, n, n) && forall i :: 0 <= i < n ==> msk[i] == mask[i][..n];
    assert Attention(m, msk, QueriesOf(m, layer, p, positions[..n]), kv).value
      == PrefixAlone(m, layer, p, positions, mask);
  }

  /** Its block gives the prefix after a layer that keeps the suffix out. */
  lemma PrefixAloneBlock(m: Model, idx: nat, p: Stream, s: Stream, positions: seq<int>, mask: Mask)
    requires WellFormed(m) && idx < |m.vlm|
    requires |positions| == |p| + |s| && MaskFits(mask, |p| + |s|, |p| + |s|)
    requires !(UsesSelfAttention(m, idx, false) && ExpertAt(m, idx).Some?)
    ensures Block(m, m.vlm[idx], p, Some(PrefixAlone(m, m.vlm[idx], p, positions, mask)), 0)
      == Some(JointPrefixNext(m, idx, p, s, positions, mask))
  {
    hide AttendRow, BlockToken, ExpertAt, KvOf, QueriesOf;
    assert Block(m, m.vlm[idx], p, Some(PrefixAlone(m, m.vlm[idx], p, positions, mask)), 0).value
        == JointPrefixNext(m, idx, p, s, positions, mask);
  }

  lemma JointOrphanStep(m: Model, idx: nat, p: Stream, s: Stream, positions: seq<int>, mask: Mask)
    requires WellFormed(m) && idx < |m.vlm|
    requires |positions| == |p| + |s| && MaskFits(mask, |p| + |s|, |p| + |s|)
    requires Orphan(m, idx)
    requires p != [] && s != []
    ensures LayerStep(m, idx, Run(Inputs(Some(p), Some(s)), None), positions, mask, false, false)
      == Some(Run(Inputs(Some(JointPrefixNext(m, idx, p, s, positions, mask)), Some(s)), None))
  {
    hide Attention, Projected, ApplyRope, PrefixAlone, Block, JointPrefixNext, Rows, ExpertAt, Misfit, JoinedQueries,
      JoinedKeys, JoinedValues, WellFormed, CrossAttentionLayer, UsesSelfAttention;
    var layer := m.vlm[idx];
    JoinedPrefix(m, idx, p, Some(s));
    ProjectedLength(layer, layer.qProj, p);
    ProjectedLength(layer, layer.kProj, p);
    PrefixAloneIsAttention(m, layer, p, positions, mask);
    PrefixAloneBlock(m, idx, p, s, positions, mask);
  }

  lemma JointCrossStep(m: Model, idx: nat, p: Stream, s: Stream, positions: seq<int>, mask: Mask)
    requires WellFormed(m) && idx < |m.vlm|
    requires |positions| == |p| + |s| && MaskFits(mask, |p| + |s|, |p| + |s|)
    requires !UsesSelfAttention(m, idx, false)
    requires p != [] && s != []
    requires !Misfit(m, idx, false)
    ensures LayerStep(m, idx, Run(Inputs(Some(p), Some(s)), None), positions, mask, false, false)
      == Some(Run(Inputs(Some(JointPrefixNext(m, idx, p, s, positions, mask)),
                         Some(JointSuffixNext(m, idx, p, s, positions, mask))), None))
  {
    hide Attention, Projected, ApplyRope, PrefixAlone, Block, JointPrefixNext, Rows, ExpertAt, Misfit, WellFormed,
      SelfAttentionLayer, UsesSelfAttention, ExpertCross;
    var layer, n := m.vlm[idx], |p|;
    ProjectedLength(layer, layer.qProj, p);
    ProjectedLength(layer, layer.kProj, p);
    ProjectedLength(layer, layer.vProj, p);
    PrefixAloneIsAttention(m, layer, p, positions, mask);
    PrefixAloneBlock(m, idx, p, s, positions, mask);
    if ExpertAt(m, idx).Some? {
      SuffixCrossBlock(m, idx, KvOf(m, layer, p, positions[..n]), s, positions[n..], mask);
    }
  }

  /******* All layers *******/

  /** A prefix query gets from the joint keys, its own keys and agreeing keys the same answer. */
  lemma PrefixRowAgrees(m: Model, q: Vec, kv: KeyValue, kv': KeyValue, own: KeyValue, jointRow: seq<bool>,
      pads: seq<bool>, i: nat)
    requires KvAgree(kv, kv', pads) && |own.keys| == |own.values| && |jointRow| == |pads| + |own.keys|
    requires i < |pads| && jointRow[i] && (forall j :: 0 <= j < |pads| && jointRow[j] ==> pads[j])
    requires forall j :: |pads| <= j < |jointRow| ==> !jointRow[j]
    ensures var row := jointRow[..|pads|];
      AttendRow(m, q, kv'.keys, kv'.values, row)
      == AttendRow(m, q, kv.keys, kv.values, row)
      == AttendRow(m, q, kv.keys + own.keys, kv.values + own.values, jointRow)
  {
    hide AttendRow;
    var n, row := |pads|, jointRow[..|pads|];
    AttendAgrees(m, q, kv, kv', KeyValue([], []), row, pads, i);
    assert kv.keys + [] == kv.keys && kv.values + [] == kv.values;
    assert kv'.keys + [] == kv'.keys && kv'.values + [] == kv'.values;
    AttendIgnoresMaskedTail(m, q, kv.keys + own.keys, kv.values + own.values, jointRow, n, i);
    assert (kv.keys + own.keys)[..n] == kv.keys && (kv.values + own.values)[..n] == kv.values;
  }

  /** One layer keeps the joint prefix equal to the cached prefix wherever there is no padding. */
  lemma PrefixNextAgrees(m: Model, idx: nat, p: Stream, f: Stream, s: Stream, pads: seq<bool>, atts: seq<bool>)
    requires WellFormed(m) && idx < |m.vlm| && |pads| == |atts| && Agree(p, f, pads)
    ensures MaskFits(JointMask(pads, atts, |s|), |p| + |s|, |p| + |s|)
    ensures Agree(JointPrefixNext(m, idx, p, s, JointPositions(pads, |s|), JointMask(pads, atts, |s|)),
                  FillNext(m, m.vlm[idx], f, PositionIds(pads), MakeAtt2dMasks(pads, atts)), pads)
  {
    hide AttendRow, BlockToken, JointMask, MakeAtt2dMasks, JointPositions, PositionIds, DenoisePositions, DenoiseMask,
      KvOf, QueriesOf, ExpertAt, UsesSelfAttention, WellFormed;
    var n, layer, pos := |p|, m.vlm[idx], PositionIds(pads);
    var joint, jpos, mask := JointMask(pads, atts, |s|), JointPositions(pads, |s|), MakeAtt2dMasks(pads, atts);
    JointParts(pads, atts, |s|);
    MasksAgree(pads, atts, |s|);
    var kv, kv' := KvOf(m, layer, p, pos), KvOf(m, layer, f, pos);
    KvOfAgrees(m, layer, p, f, pos, pads);
    var own := if ExpertAt(m, idx).Some? then KvOf(m, ExpertAt(m, idx).value, s, jpos[n..]) else KeyValue(s, s);
    forall i | 0 <= i < n && pads[i]
      ensures JointPrefixNext(m, idx, p, s, jpos, joint)[i] == FillNext(m, layer, f, pos, mask)[i]
    {
      VisibleIsUnpadded(pads, atts, i);
      QueryAgrees(m, layer, p, f, pos, pads, i);
      OwnLength(m, idx, s, jpos[n..]);
      assert forall j :: 0 <= j < n ==> joint[i][j] == mask[i][j];
      PrefixRowAgrees(m, QueriesOf(m, layer, p, pos)[i], kv, kv', own, joint[i], pads, i);
    }
  }

  lemma VisibleIsUnpadded(pads: seq<bool>, atts: seq<bool>, i: nat)
    requires |pads| == |atts| && i < |pads| && pads[i]
    ensures var mask := MakeAtt2dMasks(pads, atts);
      MaskFits(mask, |pads|, |pads|) && mask[i][i] && forall j :: 0 <= j < |pads| && mask[i][j] ==> pads[j]
  {
    hide Count;
  }

  lemma QueryAgrees(m: Model, layer: Layer, p: Stream, f: Stream, positions: seq<int>, pads: seq<bool>, i: nat)
    requires Agree(p, f, pads) && |positions| == |pads| && i < |pads| && pads[i]
    ensures QueriesOf(m, layer, p, positions)[i] == QueriesOf(m, layer, f, positions)[i]
  {
  }

  lemma OwnLength(m: Model, idx: nat, s: Stream, positions: seq<int>)
    requires WellFormed(m) && idx < |m.vlm| && |positions| == |s|
    ensures ExpertAt(m, idx).Some? ==>
      var own := KvOf(m, ExpertAt(m, idx).value, s, positions); |own.keys| == |own.values| == |s|
  {
  }

  /** The rest of a filling pass leaves the entries of earlier layers alone. */
  lemma {:induction false} FillKeepsEarlier(m: Model, idx: nat, f: Stream, cache: Cache, positions: seq<int>,
      mask: Mask, j: nat)
    requires WellFormed(m) && j < idx <= |m.vlm| && j in cache
    requires |f| == |positions| && MaskFits(mask, |f|, |f|)
    requires f != []
    ensures var r := RunLayers(m, idx, Run(Inputs(Some(f), None), Some(cache)), positions, mask, true, true);
      r.Some? && r.value.past.Some? && j in r.value.past.value && r.value.past.value[j] == cache[j]
    decreases |m.vlm| - idx
  {
    hide LayerStep;
    if idx < |m.vlm| {
      FillStep(m, idx, f, Some(cache), positions, mask);
      FillKeepsEarlier(m, idx + 1, FillNext(m, m.vlm[idx], f, positions, mask),
        cache[idx := KvOf(m, m.vlm[idx], f, positions)], positions, mask, j);
    }
  }

  lemma KvOfAgrees(m: Model, layer: Layer, p: Stream, f: Stream, positions: seq<int>, pads: seq<bool>)
    requires Agree(p, f, pads) && |positions| == |pads|
    ensures KvAgree(KvOf(m, layer, p, positions), KvOf(m, layer, f, positions), pads)
    ensures var kv := KvOf(m, layer, f, positions); |kv.keys| == |kv.values| == |pads|
  {
  }

  ghost predicate MisfitFrom(m: Model, idx: nat)
    requires WellFormed(m)
  {
    exists i :: idx <= i < |m.vlm| && MisfitAt(m, i)
  }

  ghost predicate BrokenFrom(m: Model, idx: nat)
    requires WellFormed(m)
  {
    exists i :: idx <= i < |m.vlm| && Broken(m, i)
  }

  lemma BrokenStep(m: Model, idx: nat)
    requires WellFormed(m) && idx < |m.vlm|
    ensures MisfitFrom(m, idx) <==> MisfitAt(m, idx) || MisfitFrom(m, idx + 1)
    ensures BrokenFrom(m, idx) <==> Broken(m, idx) || BrokenFrom(m, idx + 1)
  {
    hide MisfitAt, Orphan;
  }

  lemma MisfitIsBroken(m: Model, idx: nat)
    requires WellFormed(m)
    ensures MisfitFrom(m, idx) ==> BrokenFrom(m, idx)
  {
    hide MisfitAt, Orphan;
    if MisfitFrom(m, idx) {
      var i :| idx <= i < |m.vlm| && MisfitAt(m, i);
      assert Broken(m, i);
    }
  }

  /** What the two ways compute from layer `idx` on. */
  ghost predicate SameFrom(m: Model, idx: nat, p: Stream, f: Stream, s: Stream, past: Option<Cache>,
      pads: seq<bool>, atts: seq<bool>)
    requires WellFormed(m) && idx <= |m.vlm| && |pads| == |atts|
  {
    var joint := RunLayers(m, idx, Run(Inputs(Some(p), Some(s)), None),
                           JointPositions(pads, |s|), JointMask(pads, atts, |s|), false, false);
    var fill := RunLayers(m, idx, Run(Inputs(Some(f), None), past),
                          PositionIds(pads), MakeAtt2dMasks(pads, atts), true, true);
    && fill.Some? && (joint.None? <==> MisfitFrom(m, idx))
    && (joint.Some? ==> joint.value.inp.suffix.Some? && |joint.value.inp.suffix.value| == |s|)
    && RunLayers(m, idx, Run(Inputs(None, Some(s)), fill.value.past),
                 DenoisePositions(pads, |s|), DenoiseMask(pads, |s|), true, false)
       == if BrokenFrom(m, idx) then None
          else MisfitIsBroken(m, idx); Some(Run(Inputs(None, joint.value.inp.suffix), fill.value.past))
  }

  /** One layer in front of layers that agree. */
  lemma SameStep(m: Model, idx: nat, p: Stream, f: Stream, s: Stream, past: Option<Cache>,
      p': Stream, f': Stream, s': Stream, past': Option<Cache>, pads: seq<bool>, atts: seq<bool>)
    requires WellFormed(m) && idx < |m.vlm| && |pads| == |atts| && |s'| == |s|
    requires LayerStep(m, idx, Run(Inputs(Some(p), Some(s)), None),
                       JointPositions(pads, |s|), JointMask(pads, atts, |s|), false, false)
      == if MisfitAt(m, idx) then None else Some(Run(Inputs(Some(p'), Some(s')), None))
    requires LayerStep(m, idx, Run(Inputs(Some(f), None), past),
                       PositionIds(pads), MakeAtt2dMasks(pads, atts), true, true)
      == Some(Run(Inputs(Some(f'), None), past'))
    requires SameFrom(m, idx + 1, p', f', s', past', pads, atts)
    requires var full := RunLayers(m, idx + 1, Run(Inputs(Some(f'), None), past'),
                                   PositionIds(pads), MakeAtt2dMasks(pads, atts), true, true).value.past;
      LayerStep(m, idx, Run(Inputs(None, Some(s)), full),
                DenoisePositions(pads, |s|), DenoiseMask(pads, |s|), true, false)
      == if Broken(m, idx) then None else Some(Run(Inputs(None, Some(s')), full))
    ensures SameFrom(m, idx, p, f, s, past, pads, atts)
  {
    hide LayerStep, JointPositions, JointMask, DenoiseMask, DenoisePositions, MakeAtt2dMasks, PositionIds,
      MisfitAt, MisfitFrom, BrokenFrom, Orphan;
    BrokenStep(m, idx);
    MisfitIsBroken(m, idx);
    MisfitIsBroken(m, idx + 1);
  }

  lemma {:induction false} LayersAgree(m: Model, idx: nat, p: Stream, f: Stream, s: Stream, past: Option<Cache>,
      pads: seq<bool>, atts: seq<bool>, w: nat)
    requires WellFormed(m) && idx <= |m.vlm| && |pads| == |atts| && Agree(p, f, pads)
    requires s != []
    requires w < |pads| && pads[w]
    ensures SameFrom(m, idx, p, f, s, past, pads, atts)
    decreases |m.vlm| - idx
  {
    if idx < |m.vlm| {
      hide LayerStep, AttendRow, BlockToken, Count, JointPositions, JointMask, DenoiseMask, DenoisePositions,
        MakeAtt2dMasks, PositionIds, SuffixNext, JointPrefixNext, FillNext, KvOf, MisfitAt, Broken, RunLayers,
        SameFrom, WellFormed, KvAgree;
      var n, jpos, jmask := |s|, JointPositions(pads, |s|), JointMask(pads, atts, |s|);
      var pos, mask := PositionIds(pads), MakeAtt2dMasks(pads, atts);
      JointParts(pads, atts, n);
      var kv, kv' := KvOf(m, m.vlm[idx], p, pos), KvOf(m, m.vlm[idx], f, pos);
      KvOfAgrees(m, m.vlm[idx], p, f, pos, pads);

      JointStep(m, idx, p, s, jpos, jmask);
      var p' := JointPrefixNext(m, idx, p, s, jpos, jmask);
      var s' := SuffixNext(m, idx, kv, s, DenoisePositions(pads, n), DenoiseMask(pads, n));
      assert JointSuffixNext(m, idx, p, s, jpos, jmask) == s';

      FillStep(m, idx, f, past, pos, mask);
      var f' := FillNext(m, m.vlm[idx], f, pos, mask);
      var before: Cache := if past.Some? then past.value else map[];
      var past' := before[idx := kv'];
      FillKeepsEarlier(m, idx + 1, f', past', pos, mask, idx);
      var full := RunLayers(m, idx + 1, Run(Inputs(Some(f'), None), Some(past')), pos, mask, true,
        true).value.past.value;
      assert full[idx] == kv';

      PrefixNextAgrees(m, idx, p, f, s, pads, atts);
      LayersAgree(m, idx + 1, p', f', s', Some(past'), pads, atts, w);

      DenoiseStep(m, idx, s, full, DenoisePositions(pads, n), DenoiseMask(pads, n));
      SuffixNextAgrees(m, idx, kv, kv', s, DenoisePositions(pads, n), pads, w);
      SameStep(m, idx, p, f, s, past, p', f', s', Some(past'), pads, atts);
    }
  }

  /** The denoising pass, on the cache the prefix filled, returns the suffix of the joint pass and leaves
      the cache as it was; it fails exactly when a layer is broken, and the joint pass when a layer is a
      misfit. */
  ghost predicate CacheIsCorrect(m: Model, prefix: Stream, pads: seq<bool>, atts: seq<bool>, suffix: Stream)
    requires WellFormed(m) && |prefix| == |pads| == |atts|
  {
    var fill, joint := FillPass(m, prefix, pads, atts), JointPass(m, prefix, pads, atts, suffix);
    && fill.Some? && (joint.None? <==> MisfitFrom(m, 0))
    && (joint.Some? ==> joint.value.inp.suffix.Some? && |joint.value.inp.suffix.value| == |suffix|)
    && DenoisePass(m, pads, fill.value.past, suffix)
       == if BrokenFrom(m, 0) then None
          else MisfitIsBroken(m, 0); Some(Run(Inputs(None, joint.value.inp.suffix), fill.value.past))
  }

  /** The cache theorem.  `w` is an unpadded prefix position; `embed_prefix` always ends with the
      unpadded state tokens. */
  lemma CachedPassEqualsJointPass(m: Model, prefix: Stream, pads: seq<bool>, atts: seq<bool>, suffix: Stream, w: nat)
    requires WellFormed(m) && |prefix| == |pads| == |atts|
    requires suffix != []
    requires w < |pads| && pads[w]
    ensures CacheIsCorrect(m, prefix, pads, atts, suffix)
  {
    hide LayerStep, RunLayers, MisfitFrom, BrokenFrom, JointPositions, JointMask, DenoiseMask, DenoisePositions,
      MakeAtt2dMasks, PositionIds;
    MisfitIsBroken(m, 0);
    LayersAgree(m, 0, prefix, prefix, suffix, None, pads, atts, w);
  }
}
