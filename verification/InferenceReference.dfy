/** What inference and training compute, token by token, in terms of the model's own functions alone.  Nothing
    here uses the passes' helpers: masks are given by counting, positions are numbers, and a layer is written
    out from its norms, projections, rotary embedding, attention, residuals and MLP. */
module InferenceReference {
  import opened Wrappers
  import opened Vectors
  import opened CachedAttention
  import opened CacheCorrectness
  import opened ExpertPlacement

  /******* Masks and positions by counting *******/

  function Positions(b: seq<bool>, n: nat): set<int> {
    set j | 0 <= j < n && j < |b| && b[j]
  }

  /** How many of the first `n` flags are set. */
  function SetBefore(b: seq<bool>, n: nat): nat {
    |Positions(b, n)|
  }

  /** The row of an unpadded or padded prefix token: it sees unpadded tokens of its own and earlier blocks. */
  function PrefixRow(pads: seq<bool>, atts: seq<bool>, i: nat): (r: seq<bool>)
    requires i < |pads|
    ensures |r| == |pads|
  {
    seq(|pads|, j requires 0 <= j < |pads| =>
      pads[i] && pads[j] && SetBefore(atts, j + 1) <= SetBefore(atts, i + 1))
  }

  /** Unpadded tokens are numbered from zero. */
  function PrefixPosition(pads: seq<bool>, i: nat): int {
    SetBefore(pads, i + 1) - 1
  }

  /** A suffix token sees the unpadded prefix and the suffix up to itself. */
  function SuffixRow(pads: seq<bool>, n: nat, i: nat): (r: seq<bool>)
    ensures |r| == |pads| + n
  {
    pads + seq(n, j => j <= i)
  }

  function SuffixPosition(pads: seq<bool>, i: nat): int {
    SetBefore(pads, |pads|) + i
  }

  /******* Attention *******/

  /** The positions of set flags, from `i` on, in order. */
  function Unmasked(row: seq<bool>, i: nat): (js: seq<nat>)
    requires i <= |row|
    ensures forall k :: 0 <= k < |js| ==> i <= js[k] < |row| && row[js[k]]
    decreases |row| - i
  {
    if i == |row| then [] else (if row[i] then [i] else []) + Unmasked(row, i + 1)
  }

  function Answer(m: Model, q: Vec, keys: Stream, values: Stream, row: seq<bool>): Vec
    requires |keys| == |values| == |row|
  {
    var js := Unmasked(row, 0);
    if js == [] then m.attendNone(q, keys, values)
    else m.attend(q, seq(|js|, k requires 0 <= k < |js| => (keys[js[k]], values[js[k]])))
  }

  /******* A layer *******/

  function QueryAt(m: Model, layer: Layer, h: Vec, position: int): Vec {
    m.rope(layer.qProj(layer.inputNorm(h)), position)
  }

  function Keys(m: Model, layer: Layer, s: Stream, position: nat -> int): (r: Stream)
    ensures |r| == |s|
  {
    seq(|s|, i requires 0 <= i < |s| => m.rope(layer.kProj(layer.inputNorm(s[i])), position(i)))
  }

  function Values(layer: Layer, s: Stream): (r: Stream)
    ensures |r| == |s|
  {
    seq(|s|, i requires 0 <= i < |s| => layer.vProj(layer.inputNorm(s[i])))
  }

  function Each(f: Vec -> Vec, s: Stream): (r: Stream)
    ensures |r| == |s|
  {
    seq(|s|, i requires 0 <= i < |s| => f(s[i]))
  }

  /** The hidden state behind a layer: the attention residual, and the MLP of its norm on top of it. */
  function Behind(m: Model, layer: Layer, h: Vec, answer: Vec): Vec {
    var r := m.add(layer.oProj(answer), h);
    m.add(layer.mlp(layer.postNorm(r)), r)
  }

  predicate SelfLayer(m: Model, idx: nat) {
    !m.cross || (m.selfEvery > 0 && idx % m.selfEvery == 0)
  }

  /** The prefix after `idx` layers. */
  function PrefixAfter(m: Model, prefix: Stream, pads: seq<bool>, atts: seq<bool>, idx: nat): (r: Stream)
    requires |prefix| == |pads| == |atts| && idx <= |m.vlm|
    ensures |r| == |prefix|
  {
    if idx == 0 then prefix
    else
      var p, layer := PrefixAfter(m, prefix, pads, atts, idx - 1), m.vlm[idx - 1];
      var keys, values := Keys(m, layer, p, (i: nat) => PrefixPosition(pads, i)), Values(layer, p);
      seq(|p|, i requires 0 <= i < |p| =>
        Behind(m, layer, p[i],
          Answer(m, QueryAt(m, layer, p[i], PrefixPosition(pads, i)), keys, values, PrefixRow(pads, atts, i))))
  }

  /** The expert layer beside a VLM layer: one at every multiple of the ratio of the depths. */
  function ExpertBeside(m: Model, idx: nat): Option<Layer>
    requires WellFormed(m) && idx < |m.vlm|
  {
    var k := |m.vlm| / |m.expert|;
    ExpertIndexInRange(m, idx);
    if idx % k == 0 then Some(m.expert[idx / k]) else None
  }

  /** A suffix behind a self-attention layer: it attends over the prefix's keys and its own. */
  function SuffixBehindSelf(m: Model, layer: Layer, e: Layer, p: Stream, s: Stream, pads: seq<bool>): (r: Stream)
    requires |p| == |pads|
    ensures |r| == |s|
  {
    var keys := Keys(m, layer, p, (i: nat) => PrefixPosition(pads, i))
      + Keys(m, e, s, (i: nat) => SuffixPosition(pads, i));
    var values := Values(layer, p) + Values(e, s);
    seq(|s|, i requires 0 <= i < |s| =>
      Behind(m, e, s[i],
        Answer(m, QueryAt(m, e, s[i], SuffixPosition(pads, i)), keys, values, SuffixRow(pads, |s|, i))))
  }

  /** A suffix behind a cross-attention layer: it attends over the expert's projections of the prefix's keys. */
  function SuffixBehindCross(m: Model, layer: Layer, e: Layer, p: Stream, s: Stream, pads: seq<bool>): (r: Stream)
    requires |p| == |pads|
    ensures |r| == |s|
  {
    var keys := Each(e.kProj, Keys(m, layer, p, (i: nat) => PrefixPosition(pads, i)));
    var values := Each(e.vProj, Values(layer, p));
    seq(|s|, i requires 0 <= i < |s| =>
      Behind(m, e, s[i], Answer(m, QueryAt(m, e, s[i], i), keys, values, pads)))
  }

  /** The suffix after `idx` layers, each of which reads the prefix as that layer found it. */
  function SuffixAfter(
      m: Model, prefix: Stream, pads: seq<bool>, atts: seq<bool>, suffix: Stream, idx: nat): (r: Stream)
    requires |prefix| == |pads| == |atts| && WellFormed(m) && idx <= |m.vlm|
    ensures |r| == |suffix|
  {
    if idx == 0 then suffix
    else
      var s := SuffixAfter(m, prefix, pads, atts, suffix, idx - 1);
      var p, layer := PrefixAfter(m, prefix, pads, atts, idx - 1), m.vlm[idx - 1];
      match ExpertBeside(m, idx - 1)
      case None => s
      case Some(e) =>
        if SelfLayer(m, idx - 1) then SuffixBehindSelf(m, layer, e, p, s, pads)
        else SuffixBehindCross(m, layer, e, p, s, pads)
  }

  /******* The helpers of the passes against the reference *******/

  lemma {:induction false} CountIsCardinality(b: seq<bool>, n: nat)
    requires n <= |b|
    ensures Count(b[..n]) == SetBefore(b, n)
  {
    if n == 0 {
      assert Positions(b, 0) == {};
    } else {
      CountIsCardinality(b, n - 1);
      assert b[..n][..n - 1] == b[..n - 1];
      assert Positions(b, n) == Positions(b, n - 1) + (if b[n - 1] then {n - 1} else {});
    }
  }

  lemma CumSumIsCardinality(b: seq<bool>, i: nat)
    requires i < |b|
    ensures CumSum(b)[i] == SetBefore(b, i + 1)
  {
    hide Count;
    CountIsCardinality(b, i + 1);
  }

  lemma PrefixMaskIs(pads: seq<bool>, atts: seq<bool>, i: nat)
    requires |pads| == |atts| && i < |pads|
    ensures MakeAtt2dMasks(pads, atts)[i] == PrefixRow(pads, atts, i)
    ensures PositionIds(pads)[i] == PrefixPosition(pads, i)
  {
    hide SetBefore, CumSum;
    CumSumIsCardinality(pads, i);
    forall j | 0 <= j < |pads| ensures MakeAtt2dMasks(pads, atts)[i][j] == PrefixRow(pads, atts, i)[j] {
      CumSumIsCardinality(atts, i);
      CumSumIsCardinality(atts, j);
    }
  }

  lemma {:induction false} AllSet(n: nat, i: nat)
    requires i <= n
    ensures Count(Ones(n)[..i]) == i
  {
    if i > 0 {
      assert Ones(n)[..i][..i - 1] == Ones(n)[..i - 1];
      AllSet(n, i - 1);
    }
  }

  lemma SuffixMaskIs(pads: seq<bool>, n: nat, i: nat)
    requires i < n
    ensures DenoiseMask(pads, n)[i] == SuffixRow(pads, n, i)
    ensures DenoisePositions(pads, n)[i] == SuffixPosition(pads, i)
  {
    hide Count, SetBefore;
    AllSet(n, i + 1);
    forall j | 0 <= j < n ensures MakeAtt2dMasks(Ones(n), Ones(n))[i][j] == (j <= i) {
      AllSet(n, j + 1);
    }
    CountIsCardinality(pads, |pads|);
    assert pads[..|pads|] == pads;
  }

  lemma {:induction false} LeastOfRun(s: seq<int>, c: int)
    requires s != [] && forall i :: 0 <= i < |s| ==> s[i] == c + i
    ensures Least(s) == c
  {
    if |s| > 1 {
      assert forall i :: 0 <= i < |s| - 1 ==> s[1..][i] == c + 1 + i;
      LeastOfRun(s[1..], c + 1);
    }
  }

  /** Cross-attention numbers the suffix from zero. */
  lemma FromZeroIs(pads: seq<bool>, n: nat, i: nat)
    requires i < n
    ensures |DenoisePositions(pads, n)| == n && FromZero(DenoisePositions(pads, n))[i] == i
  {
    hide SetBefore, Least;
    var positions := DenoisePositions(pads, n);
    forall k | 0 <= k < n ensures positions[k] == SuffixPosition(pads, 0) + k {
      SuffixMaskIs(pads, n, k);
    }
    LeastOfRun(positions, SuffixPosition(pads, 0));
  }

  /** The pairs at the given positions. */
  function PairsAt(keys: Stream, values: Stream, js: seq<nat>): seq<(Vec, Vec)>
    requires |keys| == |values| && forall k :: 0 <= k < |js| ==> js[k] < |keys|
  {
    seq(|js|, k requires 0 <= k < |js| => (keys[js[k]], values[js[k]]))
  }

  lemma {:induction false} UnmaskedSnoc(row: seq<bool>, b: bool, i: nat)
    requires i <= |row|
    ensures Unmasked(row + [b], i) == Unmasked(row, i) + (if b then [|row|] else [])
    decreases |row| - i
  {
    if i < |row| {
      UnmaskedSnoc(row, b, i + 1);
    } else {
      assert Unmasked(row + [b], |row| + 1) == [];
    }
  }

  lemma {:induction false} VisibleIs(keys: Stream, values: Stream, row: seq<bool>)
    requires |keys| == |values| == |row|
    ensures Visible(keys, values, row) == PairsAt(keys, values, Unmasked(row, 0))
  {
    if row != [] {
      var k := |row| - 1;
      assert row == row[..k] + [row[k]];
      UnmaskedSnoc(row[..k], row[k], 0);
      VisibleIs(keys[..k], values[..k], row[..k]);
      hide Visible, Unmasked;
      var js := Unmasked(row[..k], 0);
      assert PairsAt(keys[..k], values[..k], js) == PairsAt(keys, values, js);
    }
  }

  lemma AnswerIs(m: Model, q: Vec, keys: Stream, values: Stream, row: seq<bool>)
    requires |keys| == |values| == |row|
    ensures AttendRow(m, q, keys, values, row) == Answer(m, q, keys, values, row)
  {
    hide Visible, Unmasked;
    VisibleIs(keys, values, row);
  }

  lemma ExpertBesideIs(m: Model, idx: nat)
    requires WellFormed(m) && idx < |m.vlm|
    ensures ExpertAt(m, idx) == ExpertBeside(m, idx)
  {
    ExpertIndexInRange(m, idx);
    Multiple(0, |m.vlm| / |m.expert|);
  }

  lemma KvIs(m: Model, layer: Layer, s: Stream, positions: seq<int>, position: nat -> int)
    requires |s| == |positions| && forall i :: 0 <= i < |s| ==> positions[i] == position(i)
    ensures KvOf(m, layer, s, positions) == KeyValue(Keys(m, layer, s, position), Values(layer, s))
  {
  }

  lemma QueryIs(m: Model, layer: Layer, s: Stream, positions: seq<int>, i: nat)
    requires |s| == |positions| && i < |s|
    ensures QueriesOf(m, layer, s, positions)[i] == QueryAt(m, layer, s[i], positions[i])
  {
  }

  lemma BehindIs(m: Model, layer: Layer, h: Vec, a: Vec)
    ensures BlockToken(m, layer, h, a) == Behind(m, layer, h, a)
  {
  }

  /** One filling layer. */
  lemma FillNextIs(m: Model, prefix: Stream, pads: seq<bool>, atts: seq<bool>, idx: nat)
    requires |prefix| == |pads| == |atts| && idx < |m.vlm|
    ensures |PositionIds(pads)| == |pads| && MaskFits(MakeAtt2dMasks(pads, atts), |pads|, |pads|)
    ensures var p := PrefixAfter(m, prefix, pads, atts, idx);
      FillNext(m, m.vlm[idx], p, PositionIds(pads), MakeAtt2dMasks(pads, atts))
      == PrefixAfter(m, prefix, pads, atts, idx + 1)
  {
    hide AttendRow, BlockToken, KvOf, QueriesOf, MakeAtt2dMasks, PositionIds, Behind, Answer, QueryAt, PrefixRow,
      PrefixPosition, DenoiseMask, DenoisePositions;
    JointParts(pads, atts, 0);
    var p, layer := PrefixAfter(m, prefix, pads, atts, idx), m.vlm[idx];
    var pos, mask := PositionIds(pads), MakeAtt2dMasks(pads, atts);
    forall i | 0 <= i < |p| ensures pos[i] == PrefixPosition(pads, i) && mask[i] == PrefixRow(pads, atts, i) {
      PrefixMaskIs(pads, atts, i);
    }
    KvIs(m, layer, p, pos, (i: nat) => PrefixPosition(pads, i));
    var keys, values := Keys(m, layer, p, (i: nat) => PrefixPosition(pads, i)), Values(layer, p);
    forall i | 0 <= i < |p|
      ensures FillNext(m, layer, p, pos, mask)[i] == PrefixAfter(m, prefix, pads, atts, idx + 1)[i]
    {
      QueryIs(m, layer, p, pos, i);
      var q := QueryAt(m, layer, p[i], PrefixPosition(pads, i));
      AnswerIs(m, q, keys, values, PrefixRow(pads, atts, i));
      BehindIs(m, layer, p[i], Answer(m, q, keys, values, PrefixRow(pads, atts, i)));
    }
  }

  lemma SuffixParameters(pads: seq<bool>, n: nat)
    ensures |DenoisePositions(pads, n)| == n && MaskFits(DenoiseMask(pads, n), n, |pads| + n)
    ensures forall i :: 0 <= i < n ==> DenoisePositions(pads, n)[i] == SuffixPosition(pads, i)
    ensures forall i :: 0 <= i < n ==> DenoiseMask(pads, n)[i] == SuffixRow(pads, n, i)
  {
    hide DenoisePositions, DenoiseMask, SuffixPosition, SuffixRow;
    JointParts(pads, pads, n);
    forall i | 0 <= i < n
      ensures DenoisePositions(pads, n)[i] == SuffixPosition(pads, i)
      ensures DenoiseMask(pads, n)[i] == SuffixRow(pads, n, i)
    {
      SuffixMaskIs(pads, n, i);
    }
  }

  /** What a layer's cache holds of a prefix. */
  ghost function CachedOf(m: Model, layer: Layer, p: Stream, pads: seq<bool>): (kv: KeyValue)
    requires |p| == |pads|
    ensures |kv.keys| == |kv.values| == |pads|
  {
    KeyValue(Keys(m, layer, p, (i: nat) => PrefixPosition(pads, i)), Values(layer, p))
  }

  lemma SelfSuffixIs(m: Model, idx: nat, p: Stream, s: Stream, pads: seq<bool>)
    requires WellFormed(m) && idx < |m.vlm| && |p| == |pads|
    requires UsesSelfAttention(m, idx, false) && ExpertAt(m, idx).Some?
    ensures |DenoisePositions(pads, |s|)| == |s| && MaskFits(DenoiseMask(pads, |s|), |s|, |pads| + |s|)
    ensures SuffixNext(m, idx, CachedOf(m, m.vlm[idx], p, pads), s, DenoisePositions(pads, |s|), DenoiseMask(pads, |s|))
      == SuffixBehindSelf(m, m.vlm[idx], ExpertAt(m, idx).value, p, s, pads)
  {
    hide AttendRow, BlockToken, KvOf, QueriesOf, DenoiseMask, DenoisePositions, Behind, Answer, QueryAt, SuffixRow,
      SuffixPosition, PrefixPosition, ExpertAt, UsesSelfAttention, WellFormed;
    var n, e, kv := |s|, ExpertAt(m, idx).value, CachedOf(m, m.vlm[idx], p, pads);
    var pos, mask := DenoisePositions(pads, n), DenoiseMask(pads, n);
    SuffixParameters(pads, n);
    KvIs(m, e, s, pos, (i: nat) => SuffixPosition(pads, i));
    var keys := kv.keys + Keys(m, e, s, (i: nat) => SuffixPosition(pads, i));
    var values := kv.values + Values(e, s);
    forall i | 0 <= i < n
      ensures SuffixNext(m, idx, kv, s, pos, mask)[i] == SuffixBehindSelf(m, m.vlm[idx], e, p, s, pads)[i]
    {
      QueryIs(m, e, s, pos, i);
      var q := QueryAt(m, e, s[i], SuffixPosition(pads, i));
      AnswerIs(m, q, keys, values, SuffixRow(pads, n, i));
      BehindIs(m, e, s[i], Answer(m, q, keys, values, SuffixRow(pads, n, i)));
    }
  }

  lemma EachIs(f: Vec -> Vec, s: Stream)
    ensures MapVec(f, s) == Each(f, s)
  {
  }

  lemma CrossSuffixIs(m: Model, idx: nat, p: Stream, s: Stream, pads: seq<bool>)
    requires WellFormed(m) && idx < |m.vlm| && |p| == |pads|
    requires !UsesSelfAttention(m, idx, false) && ExpertAt(m, idx).Some?
    ensures |DenoisePositions(pads, |s|)| == |s| && MaskFits(DenoiseMask(pads, |s|), |s|, |pads| + |s|)
    ensures SuffixNext(m, idx, CachedOf(m, m.vlm[idx], p, pads), s, DenoisePositions(pads, |s|), DenoiseMask(pads, |s|))
      == SuffixBehindCross(m, m.vlm[idx], ExpertAt(m, idx).value, p, s, pads)
  {
    hide AttendRow, BlockToken, KvOf, QueriesOf, DenoiseMask, DenoisePositions, Behind, Answer, QueryAt, SuffixPosition,
      PrefixPosition, ExpertAt, UsesSelfAttention, WellFormed, MapVec, Each, FromZero;
    var n, e, kv := |s|, ExpertAt(m, idx).value, CachedOf(m, m.vlm[idx], p, pads);
    var pos, mask := DenoisePositions(pads, n), DenoiseMask(pads, n);
    SuffixParameters(pads, n);
    EachIs(e.kProj, kv.keys);
    EachIs(e.vProj, kv.values);
    var keys, values := Each(e.kProj, kv.keys), Each(e.vProj, kv.values);
    forall i | 0 <= i < n
      ensures SuffixNext(m, idx, kv, s, pos, mask)[i] == SuffixBehindCross(m, m.vlm[idx], e, p, s, pads)[i]
    {
      FromZeroIs(pads, n, i);
      QueryIs(m, e, s, FromZero(pos), i);
      assert mask[i][..|pads|] == pads;
      var q := QueryAt(m, e, s[i], i);
      AnswerIs(m, q, keys, values, pads);
      BehindIs(m, e, s[i], Answer(m, q, keys, values, pads));
    }
  }

  /** One denoising layer. */
  lemma SuffixNextIs(m: Model, prefix: Stream, pads: seq<bool>, atts: seq<bool>, suffix: Stream, idx: nat)
    requires |prefix| == |pads| == |atts| && WellFormed(m) && idx < |m.vlm|
    ensures var s, p := SuffixAfter(m, prefix, pads, atts, suffix, idx), PrefixAfter(m, prefix, pads, atts, idx);
      && |DenoisePositions(pads, |s|)| == |s| && MaskFits(DenoiseMask(pads, |s|), |s|, |pads| + |s|)
      && SuffixNext(m, idx, CachedOf(m, m.vlm[idx], p, pads), s, DenoisePositions(pads, |s|), DenoiseMask(pads, |s|))
         == SuffixAfter(m, prefix, pads, atts, suffix, idx + 1)
  {
    hide DenoiseMask, DenoisePositions, SuffixBehindSelf, SuffixBehindCross, CachedOf, ExpertAt, ExpertBeside,
      WellFormed, PrefixAfter;
    var s, p := SuffixAfter(m, prefix, pads, atts, suffix, idx), PrefixAfter(m, prefix, pads, atts, idx);
    SuffixParameters(pads, |s|);
    ExpertBesideIs(m, idx);
    if ExpertAt(m, idx).Some? {
      if UsesSelfAttention(m, idx, false) {
        SelfSuffixIs(m, idx, p, s, pads);
      } else {
        CrossSuffixIs(m, idx, p, s, pads);
      }
    }
  }

  /******* Whole passes *******/

  /** The cache of layers `idx` to the last holds the reference keys and values. */
  ghost predicate HoldsFrom(m: Model, prefix: Stream, pads: seq<bool>, atts: seq<bool>, cache: Cache, idx: nat)
    requires |prefix| == |pads| == |atts|
  {
    forall j :: idx <= j < |m.vlm| ==>
      j in cache && cache[j] == CachedOf(m, m.vlm[j], PrefixAfter(m, prefix, pads, atts, j), pads)
  }

  lemma RunEnds(m: Model, st: Run, positions: seq<int>, mask: Mask, useCache: bool, fill: bool)
    requires WellFormed(m)
    ensures RunLayers(m, |m.vlm|, st, positions, mask, useCache, fill) == Some(st)
  {
  }

  lemma {:induction false} RunSteps(m: Model, idx: nat, st: Run, st': Run, positions: seq<int>, mask: Mask,
      useCache: bool, fill: bool)
    requires WellFormed(m) && idx < |m.vlm| && LayerStep(m, idx, st, positions, mask, useCache, fill) == Some(st')
    ensures RunLayers(m, idx, st, positions, mask, useCache, fill)
         == RunLayers(m, idx + 1, st', positions, mask, useCache, fill)
  {
    hide LayerStep, WellFormed;
  }

  lemma HoldsOneMore(m: Model, prefix: Stream, pads: seq<bool>, atts: seq<bool>, cache: Cache, idx: nat)
    requires |prefix| == |pads| == |atts| && idx < |m.vlm| && idx in cache
    requires cache[idx] == CachedOf(m, m.vlm[idx], PrefixAfter(m, prefix, pads, atts, idx), pads)
    requires idx + 1 < |m.vlm| ==> HoldsFrom(m, prefix, pads, atts, cache, idx + 1)
    ensures HoldsFrom(m, prefix, pads, atts, cache, idx)
  {
    hide CachedOf, PrefixAfter;
  }

  lemma {:induction false} FillRunIs(m: Model, prefix: Stream, pads: seq<bool>, atts: seq<bool>, idx: nat,
      past: Option<Cache>)
    requires WellFormed(m) && |prefix| == |pads| == |atts| > 0 && idx <= |m.vlm|
    ensures var r := RunLayers(m, idx, Run(Inputs(Some(PrefixAfter(m, prefix, pads, atts, idx)), None), past),
                               PositionIds(pads), MakeAtt2dMasks(pads, atts), true, true);
      && r.Some? && r.value.inp == Inputs(Some(PrefixAfter(m, prefix, pads, atts, |m.vlm|)), None)
      && (idx < |m.vlm| ==> r.value.past.Some? && HoldsFrom(m, prefix, pads, atts, r.value.past.value, idx))
    decreases |m.vlm| - idx
  {
    hide LayerStep, RunLayers, MakeAtt2dMasks, PositionIds, FillNext, PrefixAfter, CachedOf, WellFormed, KvOf,
      HoldsFrom;
    var p, pos, mask := PrefixAfter(m, prefix, pads, atts, idx), PositionIds(pads), MakeAtt2dMasks(pads, atts);
    var st := Run(Inputs(Some(p), None), past);
    if idx == |m.vlm| {
      RunEnds(m, st, pos, mask, true, true);
    } else {
      var layer, p' := m.vlm[idx], PrefixAfter(m, prefix, pads, atts, idx + 1);
      FillNextIs(m, prefix, pads, atts, idx);
      FillStep(m, idx, p, past, pos, mask);
      CacheEntryIs(m, layer, p, pads, atts);
      var before: Cache := if past.Some? then past.value else map[];
      var past' := before[idx := KvOf(m, layer, p, pos)];
      RunSteps(m, idx, st, Run(Inputs(Some(p'), None), Some(past')), pos, mask, true, true);
      FillKeepsEarlier(m, idx + 1, p', past', pos, mask, idx);
      FillRunIs(m, prefix, pads, atts, idx + 1, Some(past'));
      HoldsOneMore(m, prefix, pads, atts, RunLayers(m, idx, st, pos, mask, true, true).value.past.value, idx);
    }
  }

  lemma CacheEntryIs(m: Model, layer: Layer, p: Stream, pads: seq<bool>, atts: seq<bool>)
    requires |p| == |pads| == |atts|
    ensures |PositionIds(pads)| == |pads| && KvOf(m, layer, p, PositionIds(pads)) == CachedOf(m, layer, p, pads)
  {
    hide PositionIds, KvOf, PrefixPosition, MakeAtt2dMasks, DenoiseMask, DenoisePositions;
    JointParts(pads, atts, 0);
    forall i | 0 <= i < |p| ensures PositionIds(pads)[i] == PrefixPosition(pads, i) {
      PrefixMaskIs(pads, atts, i);
    }
    KvIs(m, layer, p, PositionIds(pads), (i: nat) => PrefixPosition(pads, i));
  }

  lemma HoldsAt(m: Model, prefix: Stream, pads: seq<bool>, atts: seq<bool>, cache: Cache, idx: nat)
    requires |prefix| == |pads| == |atts| && idx < |m.vlm| && HoldsFrom(m, prefix, pads, atts, cache, idx)
    ensures idx in cache && cache[idx] == CachedOf(m, m.vlm[idx], PrefixAfter(m, prefix, pads, atts, idx), pads)
    ensures HoldsFrom(m, prefix, pads, atts, cache, idx + 1)
  {
    hide CachedOf, PrefixAfter;
  }

  lemma {:induction false} DenoiseRunIs(m: Model, prefix: Stream, pads: seq<bool>, atts: seq<bool>, suffix: Stream,
      cache: Cache, idx: nat)
    requires WellFormed(m) && |prefix| == |pads| == |atts| && suffix != [] && idx <= |m.vlm|
    requires HoldsFrom(m, prefix, pads, atts, cache, idx) && !BrokenFrom(m, idx)
    ensures RunLayers(m, idx, Run(Inputs(None, Some(SuffixAfter(m, prefix, pads, atts, suffix, idx))), Some(cache)),
                      DenoisePositions(pads, |suffix|), DenoiseMask(pads, |suffix|), true, false)
      == Some(Run(Inputs(None, Some(SuffixAfter(m, prefix, pads, atts, suffix, |m.vlm|))), Some(cache)))
    decreases |m.vlm| - idx
  {
    hide LayerStep, RunLayers, DenoiseMask, DenoisePositions, SuffixNext, SuffixAfter, PrefixAfter, CachedOf,
      WellFormed, Broken, HoldsFrom, BrokenFrom;
    var s, pos, mask := SuffixAfter(m, prefix, pads, atts, suffix, idx), DenoisePositions(pads, |suffix|),
      DenoiseMask(pads, |suffix|);
    var st := Run(Inputs(None, Some(s)), Some(cache));
    if idx == |m.vlm| {
      RunEnds(m, st, pos, mask, true, false);
    } else {
      var s' := SuffixAfter(m, prefix, pads, atts, suffix, idx + 1);
      BrokenStep(m, idx);
      HoldsAt(m, prefix, pads, atts, cache, idx);
      SuffixNextIs(m, prefix, pads, atts, suffix, idx);
      DenoiseStep(m, idx, s, cache, pos, mask);
      RunSteps(m, idx, st, Run(Inputs(None, Some(s')), Some(cache)), pos, mask, true, false);
      DenoiseRunIs(m, prefix, pads, atts, suffix, cache, idx + 1);
    }
  }

  /** Inference is the reference: the prefix pass leaves every layer's keys and values in the cache, the
      denoising pass returns the suffix after all layers, and each final norm is applied once. */
  lemma InferenceIsReference(m: Model, prefix: Stream, pads: seq<bool>, atts: seq<bool>, suffix: Stream)
    requires WellFormed(m) && |prefix| == |pads| == |atts| > 0 && suffix != []
    ensures var fill := FillPass(m, prefix, pads, atts);
      && fill.Some?
      && fill.value.inp == Inputs(Some(Each(m.vlmNorm, PrefixAfter(m, prefix, pads, atts, |m.vlm|))), None)
      && (m.vlm != [] ==> fill.value.past.Some? && HoldsFrom(m, prefix, pads, atts, fill.value.past.value, 0))
      && (!BrokenFrom(m, 0) ==>
            DenoisePass(m, pads, fill.value.past, suffix)
            == Some(Run(Inputs(None, Some(Each(m.expertNorm, SuffixAfter(m, prefix, pads, atts, suffix, |m.vlm|)))),
                        fill.value.past)))
  {
    hide RunLayers, MakeAtt2dMasks, PositionIds, DenoiseMask, DenoisePositions, WellFormed, BrokenFrom, HoldsFrom,
      MapVec, Each, SuffixAfter, PrefixAfter;
    StartOfReference(m, prefix, pads, atts, suffix);
    FillRunIs(m, prefix, pads, atts, 0, None);
    EachIs(m.vlmNorm, PrefixAfter(m, prefix, pads, atts, |m.vlm|));
    EachIs(m.expertNorm, SuffixAfter(m, prefix, pads, atts, suffix, |m.vlm|));
    var past := FillPass(m, prefix, pads, atts).value.past;
    if m.vlm == [] {
      RunEnds(m, Run(Inputs(None, Some(suffix)), past), DenoisePositions(pads, |suffix|), DenoiseMask(pads, |suffix|),
              true, false);
    } else if !BrokenFrom(m, 0) {
      DenoiseRunIs(m, prefix, pads, atts, suffix, past.value, 0);
    }
  }

  lemma StartOfReference(m: Model, prefix: Stream, pads: seq<bool>, atts: seq<bool>, suffix: Stream)
    requires WellFormed(m) && |prefix| == |pads| == |atts|
    ensures PrefixAfter(m, prefix, pads, atts, 0) == prefix && SuffixAfter(m, prefix, pads, atts, suffix, 0) == suffix
  {
  }

  /******* Training *******/

  /** One layer of the joint pass, whose prefix equals the reference where it is unpadded. */
  lemma JointNextIs(m: Model, prefix: Stream, pads: seq<bool>, atts: seq<bool>, suffix: Stream, idx: nat, p: Stream,
      w: nat)
    requires WellFormed(m) && |prefix| == |pads| == |atts| && suffix != [] && idx < |m.vlm| && !MisfitAt(m, idx)
    requires w < |pads| && pads[w] && Agree(p, PrefixAfter(m, prefix, pads, atts, idx), pads)
    ensures var s := SuffixAfter(m, prefix, pads, atts, suffix, idx);
      var r := LayerStep(m, idx, Run(Inputs(Some(p), Some(s)), None), JointPositions(pads, |suffix|),
                         JointMask(pads, atts, |suffix|), false, false);
      && r.Some? && r.value.past.None? && r.value.inp.prefix.Some?
      && Agree(r.value.inp.prefix.value, PrefixAfter(m, prefix, pads, atts, idx + 1), pads)
      && r.value.inp.suffix == Some(SuffixAfter(m, prefix, pads, atts, suffix, idx + 1))
  {
    hide LayerStep, MakeAtt2dMasks, PositionIds, DenoiseMask, DenoisePositions, JointMask, JointPositions, FillNext,
      SuffixNext, JointPrefixNext, PrefixAfter, SuffixAfter, CachedOf, KvOf, KvAgree, WellFormed, MisfitAt;
    var s, f, n := SuffixAfter(m, prefix, pads, atts, suffix, idx), PrefixAfter(m, prefix, pads, atts, idx), |suffix|;
    var pos := PositionIds(pads);
    JointParts(pads, atts, n);
    JointStep(m, idx, p, s, JointPositions(pads, n), JointMask(pads, atts, n));
    PrefixNextAgrees(m, idx, p, f, s, pads, atts);
    FillNextIs(m, prefix, pads, atts, idx);
    KvOfAgrees(m, m.vlm[idx], p, f, pos, pads);
    CacheEntryIs(m, m.vlm[idx], f, pads, atts);
    SuffixNextAgrees(m, idx, KvOf(m, m.vlm[idx], p, pos), KvOf(m, m.vlm[idx], f, pos), s, DenoisePositions(pads, n),
                     pads, w);
    SuffixNextIs(m, prefix, pads, atts, suffix, idx);
  }

  lemma {:induction false} JointRunIs(m: Model, prefix: Stream, pads: seq<bool>, atts: seq<bool>, suffix: Stream,
      idx: nat, p: Stream, w: nat)
    requires WellFormed(m) && |prefix| == |pads| == |atts| && suffix != [] && idx <= |m.vlm| && !MisfitFrom(m, idx)
    requires w < |pads| && pads[w] && Agree(p, PrefixAfter(m, prefix, pads, atts, idx), pads)
    ensures var s := SuffixAfter(m, prefix, pads, atts, suffix, idx);
      var r := RunLayers(m, idx, Run(Inputs(Some(p), Some(s)), None), JointPositions(pads, |suffix|),
                         JointMask(pads, atts, |suffix|), false, false);
      && r.Some? && r.value.inp.prefix.Some?
      && Agree(r.value.inp.prefix.value, PrefixAfter(m, prefix, pads, atts, |m.vlm|), pads)
      && r.value.inp.suffix == Some(SuffixAfter(m, prefix, pads, atts, suffix, |m.vlm|))
    decreases |m.vlm| - idx
  {
    hide LayerStep, RunLayers, JointMask, JointPositions, PrefixAfter, SuffixAfter, WellFormed, MisfitAt, MisfitFrom,
      BrokenFrom, Agree;
    var pos, mask := JointPositions(pads, |suffix|), JointMask(pads, atts, |suffix|);
    var st := Run(Inputs(Some(p), Some(SuffixAfter(m, prefix, pads, atts, suffix, idx))), None);
    if idx == |m.vlm| {
      RunEnds(m, st, pos, mask, false, false);
    } else {
      BrokenStep(m, idx);
      JointNextIs(m, prefix, pads, atts, suffix, idx, p, w);
      var st' := LayerStep(m, idx, st, pos, mask, false, false).value;
      RunSteps(m, idx, st, st', pos, mask, false, false);
      JointRunIs(m, prefix, pads, atts, suffix, idx + 1, st'.inp.prefix.value, w);
    }
  }

  /** So is training, for every configuration it works in: it returns the same suffix, and the same prefix
      where it is unpadded. */
  lemma TrainingIsReference(m: Model, prefix: Stream, pads: seq<bool>, atts: seq<bool>, suffix: Stream, w: nat)
    requires WellFormed(m) && |prefix| == |pads| == |atts| && suffix != []
    requires w < |pads| && pads[w] && !MisfitFrom(m, 0)
    ensures var joint := JointPass(m, prefix, pads, atts, suffix);
      && joint.Some? && joint.value.inp.prefix.Some?
      && joint.value.inp.suffix == Some(Each(m.expertNorm, SuffixAfter(m, prefix, pads, atts, suffix, |m.vlm|)))
      && Agree(joint.value.inp.prefix.value, Each(m.vlmNorm, PrefixAfter(m, prefix, pads, atts, |m.vlm|)), pads)
  {
    hide RunLayers, JointMask, JointPositions, MisfitFrom, WellFormed, SuffixAfter, PrefixAfter;
    StartOfReference(m, prefix, pads, atts, suffix);
    JointRunIs(m, prefix, pads, atts, suffix, 0, prefix, w);
    EachIs(m.expertNorm, SuffixAfter(m, prefix, pads, atts, suffix, |m.vlm|));
  }
}
