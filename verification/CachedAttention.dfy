/** The two ways SmolVLA runs its transformer.

    Training runs the prefix (images, language, state) and the suffix (noisy actions) together.
    Inference first runs the prefix alone and keeps each layer's keys and values, then runs only the
    suffix against that cache, once per denoising step.  Norms, projections, rotary embedding, MLPs
    and the attention kernel are arbitrary functions here, so what is proved about the two passes
    holds for every set of weights.  One batch row is modelled.
 */
module CachedAttention {
  import opened Wrappers
  import opened Vectors

  type Stream = seq<Vec>
  type Mask = seq<seq<bool>>

  datatype Layer = Layer(
    inputNorm: Vec -> Vec,
    qProj: Vec -> Vec,
    kProj: Vec -> Vec,
    vProj: Vec -> Vec,
    oProj: Vec -> Vec,
    postNorm: Vec -> Vec,
    mlp: Vec -> Vec)

  /** `expertWidth` is the width of the expert's hidden states and `kvWidth` that of the VLM's keys and
      values.  `attend` sees the unmasked (key, value) pairs of a query.  A query with no unmasked key gets
      whatever the kernel makes of all keys and values (`attendNone`): the SDPA and the eager kernel
      differ there. */
  datatype Model = Model(
    vlm: seq<Layer>,
    expert: seq<Layer>,
    cross: bool,
    selfEvery: int,
    expertWidth: nat,
    kvWidth: nat,
    vlmNorm: Vec -> Vec,
    expertNorm: Vec -> Vec,
    rope: (Vec, int) -> Vec,
    attend: (Vec, seq<(Vec, Vec)>) -> Vec,
    attendNone: (Vec, Stream, Stream) -> Vec,
    add: (Vec, Vec) -> Vec)

  datatype KeyValue = KeyValue(keys: Stream, values: Stream)
  type Cache = map<nat, KeyValue>

  /** `inputs_embeds`: the VLM stream and the expert stream, either of which may be absent. */
  datatype Inputs = Inputs(prefix: Option<Stream>, suffix: Option<Stream>)

  datatype Attended = Attended(outputs: seq<Option<Stream>>, past: Option<Cache>)

  /** What the constructor asserts: the VLM depth is a multiple of the expert depth. */
  predicate WellFormed(m: Model) {
    |m.expert| > 0 && |m.vlm| % |m.expert| == 0
  }

  /******* Masks and position ids *******/

  function Count(b: seq<bool>): (n: nat)
    ensures n <= |b|
  {
    if b == [] then 0 else Count(b[..|b| - 1]) + (if b[|b| - 1] then 1 else 0)
  }

  function CumSum(b: seq<bool>): (c: seq<int>) {
    seq(|b|, i requires 0 <= i < |b| => Count(b[..i + 1]))
  }

  function MakeAtt2dMasks(pads: seq<bool>, atts: seq<bool>): Mask
    requires |pads| == |atts|
  {
    var c := CumSum(atts);
    seq(|pads|, i requires 0 <= i < |pads| =>
      seq(|pads|, j requires 0 <= j < |pads| => c[j] <= c[i] && pads[j] && pads[i]))
  }

  function PositionIds(pads: seq<bool>): seq<int> {
    seq(|pads|, i requires 0 <= i < |pads| => CumSum(pads)[i] - 1)
  }

  function Ones(n: nat): seq<bool> {
    seq(n, _ => true)
  }

  function JointMask(pads: seq<bool>, atts: seq<bool>, n: nat): Mask
    requires |pads| == |atts|
  {
    MakeAtt2dMasks(pads + Ones(n), atts + Ones(n))
  }

  function JointPositions(pads: seq<bool>, n: nat): seq<int> {
    PositionIds(pads + Ones(n))
  }

  function DenoiseMask(pads: seq<bool>, n: nat): Mask {
    var own := MakeAtt2dMasks(Ones(n), Ones(n));
    seq(n, i requires 0 <= i < n => pads + own[i])
  }

  function DenoisePositions(pads: seq<bool>, n: nat): seq<int> {
    seq(n, i requires 0 <= i < n => Count(pads) + CumSum(Ones(n))[i] - 1)
  }

  /******* Layers *******/

  predicate UsesSelfAttention(m: Model, idx: nat, fill: bool) {
    fill || !m.cross || (m.selfEvery > 0 && idx % m.selfEvery == 0)
  }

  /** `get_model_layers`: the number of the expert layer that runs beside VLM layer `idx`, if any. */
  function ExpertIndex(m: Model, idx: nat): (r: Option<nat>)
    requires WellFormed(m) && idx < |m.vlm|
    ensures r.Some? ==> r.value < |m.expert|
  {
    var multipleOf := |m.vlm| / |m.expert|;
    if multipleOf > 0 && idx > 0 && idx % multipleOf != 0 then None
    else
      ExpertIndexInRange(m, idx);
      Some(if multipleOf > 0 then idx / multipleOf else idx)
  }

  function ExpertAt(m: Model, idx: nat): Option<Layer>
    requires WellFormed(m) && idx < |m.vlm|
  {
    match ExpertIndex(m, idx)
    case None => None
    case Some(e) => Some(m.expert[e])
  }

  /** The constructor gives expert layers new key and value projections, which take the VLM's keys and
      values, except those whose own number is a multiple of the stride. */
  predicate Reshaped(m: Model, e: nat) {
    m.cross && !(m.selfEvery > 0 && e % m.selfEvery == 0)
  }

  function KvInputWidth(m: Model, e: nat): nat {
    if Reshaped(m, e) then m.kvWidth else m.expertWidth
  }

  /** Self-attention feeds an expert's key and value projections with its own hidden states and
      cross-attention with the VLM's keys and values.  A projection of another width raises. */
  predicate Misfit(m: Model, idx: nat, selfAttention: bool)
    requires WellFormed(m) && idx < |m.vlm|
  {
    && ExpertIndex(m, idx).Some?
    && KvInputWidth(m, ExpertIndex(m, idx).value) != if selfAttention then m.expertWidth else m.kvWidth
  }

  lemma ExpertIndexInRange(m: Model, idx: nat)
    requires WellFormed(m) && idx < |m.vlm|
    ensures |m.vlm| / |m.expert| > 0
    ensures idx / (|m.vlm| / |m.expert|) < |m.expert|
  {
    var e, k := |m.expert|, |m.vlm| / |m.expert|;
    assert k * e == |m.vlm|;
    FactorsAbove(0, k, e);
    var q := idx / k;
    FactorsAbove(q, e, k);
  }

  lemma FactorsAbove(a: nat, b: nat, c: nat)
    requires a * c < b * c
    ensures a < b
  {
  }

  function Visible(keys: Stream, values: Stream, row: seq<bool>): seq<(Vec, Vec)>
    requires |keys| == |values| == |row|
  {
    if row == [] then []
    else
      var k := |row| - 1;
      Visible(keys[..k], values[..k], row[..k]) + (if row[k] then [(keys[k], values[k])] else [])
  }

  function AttendRow(m: Model, q: Vec, keys: Stream, values: Stream, row: seq<bool>): Vec
    requires |keys| == |values| == |row|
  {
    var visible := Visible(keys, values, row);
    if visible == [] then m.attendNone(q, keys, values) else m.attend(q, visible)
  }

  predicate MaskFits(mask: Mask, rows: nat, columns: nat) {
    |mask| == rows && forall i :: 0 <= i < rows ==> |mask[i]| == columns
  }

  /** The attention kernel; `None` when the mask does not fit the queries and keys. */
  function Attention(m: Model, mask: Mask, queries: Stream, kv: KeyValue): Option<Stream> {
    if |kv.keys| == |kv.values| && MaskFits(mask, |queries|, |kv.keys|) then
      Some(seq(|queries|, i requires 0 <= i < |queries| =>
        AttendRow(m, queries[i], kv.keys, kv.values, mask[i])))
    else None
  }

  function MapVec(f: Vec -> Vec, s: Stream): (r: Stream)
    ensures |r| == |s|
  {
    seq(|s|, i requires 0 <= i < |s| => f(s[i]))
  }

  function ApplyRope(m: Model, s: Stream, positions: seq<int>): (r: Stream)
    requires |s| == |positions|
    ensures |r| == |s|
  {
    seq(|s|, i requires 0 <= i < |s| => m.rope(s[i], positions[i]))
  }

  function Rows(mask: Mask, rows: nat, columns: nat): Mask {
    var taken := if rows <= |mask| then mask[..rows] else mask;
    seq(|taken|, i requires 0 <= i < |taken| =>
      if columns <= |taken[i]| then taken[i][..columns] else taken[i])
  }

  function LastRows(mask: Mask, rows: nat, columns: nat): Mask {
    var taken := if rows <= |mask| then mask[|mask| - rows..] else mask;
    seq(|taken|, i requires 0 <= i < |taken| =>
      if columns <= |taken[i]| then taken[i][..columns] else taken[i])
  }

  function Projected(layer: Layer, proj: Vec -> Vec, s: Stream): Stream {
    MapVec(proj, MapVec(layer.inputNorm, s))
  }

  function Joined(m: Model, idx: nat, inp: Inputs, proj: Layer -> (Vec -> Vec)): Stream
    requires WellFormed(m) && idx < |m.vlm|
  {
    (if inp.prefix.Some? then Projected(m.vlm[idx], proj(m.vlm[idx]), inp.prefix.value) else []) +
    (if inp.suffix.Some? && ExpertAt(m, idx).Some?
     then Projected(ExpertAt(m, idx).value, proj(ExpertAt(m, idx).value), inp.suffix.value) else [])
  }

  function JoinedQueries(m: Model, idx: nat, inp: Inputs): Stream
    requires WellFormed(m) && idx < |m.vlm|
  {
    Joined(m, idx, inp, (l: Layer) => l.qProj)
  }

  function JoinedKeys(m: Model, idx: nat, inp: Inputs): Stream
    requires WellFormed(m) && idx < |m.vlm|
  {
    Joined(m, idx, inp, (l: Layer) => l.kProj)
  }

  function JoinedValues(m: Model, idx: nat, inp: Inputs): Stream
    requires WellFormed(m) && idx < |m.vlm|
  {
    Joined(m, idx, inp, (l: Layer) => l.vProj)
  }

  /** A stream without tokens cannot be split into heads. */
  predicate NoTokens(s: Option<Stream>) {
    s == Some([])
  }

  /** `forward_attn_layer`.  `None` is a run-time failure: no stream takes part or one has no tokens,
      widths or lengths differ, or the cache has no entry for the layer. */
  function SelfAttentionLayer(m: Model, idx: nat, inp: Inputs, positions: seq<int>, mask: Mask,
      useCache: bool, fill: bool, past: Option<Cache>): Option<Attended>
    requires WellFormed(m) && idx < |m.vlm|
  {
    if inp.prefix.None? && (inp.suffix.None? || ExpertAt(m, idx).None?) then None
    else if NoTokens(inp.prefix) then None
    else if ExpertAt(m, idx).Some? && (NoTokens(inp.suffix) || (inp.suffix.Some? && Misfit(m, idx, true))) then None
    else
      var q, k, v := JoinedQueries(m, idx, inp), JoinedKeys(m, idx, inp), JoinedValues(m, idx, inp);
      var n := |q|;
      var pos := if n < |positions| then positions[..n] else positions;
      var msk := if n < |positions| then Rows(mask, n, n) else mask;
      if |pos| != n || |k| != n then None
      else
        var q' := ApplyRope(m, q, pos);
        var k' := ApplyRope(m, k, pos);
        var before: Cache := if past.Some? then past.value else map[];
        if useCache && !fill && idx !in before then None
        else
          var kv := if useCache && !fill
                    then KeyValue(before[idx].keys + k', before[idx].values + v)
                    else KeyValue(k', v);
          var after := if !useCache then past
                       else if fill then Some(before[idx := KeyValue(k', v)])
                       else Some(before);
          match Attention(m, msk, q', kv)
          case None => None
          case Some(att) => Some(Attended([Some(att)], after))
  }

  function Least(s: seq<int>): int
    requires s != []
  {
    if |s| == 1 then s[0]
    else var r := Least(s[1..]); if s[0] <= r then s[0] else r
  }

  function FromZero(s: seq<int>): (r: seq<int>)
    ensures |r| == |s|
  {
    if s == [] then [] else seq(|s|, i requires 0 <= i < |s| => s[i] - Least(s))
  }

  /** The expert's half of `forward_cross_attn_layer`. */
  function ExpertCross(m: Model, expert: Layer, suffix: Stream, positions: seq<int>, mask: Mask,
      kv: KeyValue): Option<Stream>
  {
    if |positions| != |suffix| || suffix == [] then None
    else
      var q := ApplyRope(m, Projected(expert, expert.qProj, suffix), FromZero(positions));
      Attention(m, LastRows(mask, |suffix|, |kv.keys|), q,
                KeyValue(MapVec(expert.kProj, kv.keys), MapVec(expert.vProj, kv.values)))
  }

  /** `forward_cross_attn_layer`. */
  function CrossAttentionLayer(m: Model, idx: nat, inp: Inputs, positions: seq<int>, mask: Mask,
      useCache: bool, fill: bool, past: Option<Cache>): Option<Attended>
    requires WellFormed(m) && idx < |m.vlm|
  {
    var emptyPast := past.None? || past.value == map[];
    var before: Cache := if past.Some? then past.value else map[];
    if emptyPast then
      if inp.prefix.None? || NoTokens(inp.prefix) || |inp.prefix.value| > |positions| then None
      else
        var layer, prefix := m.vlm[idx], inp.prefix.value;
        var n := |prefix|;
        var q := ApplyRope(m, Projected(layer, layer.qProj, prefix), positions[..n]);
        var k := ApplyRope(m, Projected(layer, layer.kProj, prefix), positions[..n]);
        var kv := KeyValue(k, Projected(layer, layer.vProj, prefix));
        if useCache && !fill then None
        else
          var after := if useCache then Some(before[idx := kv]) else past;
          match Attention(m, Rows(mask, n, n), q, kv)
          case None => None
          case Some(att) =>
            CrossOutputs(m, idx, inp, positions[n..], mask, kv, [Some(att)], after)
    else if !useCache || fill || idx !in before then None
    else CrossOutputs(m, idx, inp, positions, mask, before[idx], [], past)
  }

  function CrossOutputs(m: Model, idx: nat, inp: Inputs, positions: seq<int>, mask: Mask,
      kv: KeyValue, sofar: seq<Option<Stream>>, after: Option<Cache>): Option<Attended>
    requires WellFormed(m) && idx < |m.vlm|
  {
    match ExpertAt(m, idx)
    case None => Some(Attended(sofar + [None], after))
    case Some(expert) =>
      if inp.suffix.None? || Misfit(m, idx, false) then None
      else
        match ExpertCross(m, expert, inp.suffix.value, positions, mask, kv)
        case None => None
        case Some(att) => Some(Attended(sofar + [Some(att)], after))
  }

  /** Output projection, residuals and MLP of one stream, on its slice of the attention output. */
  function Block(m: Model, layer: Layer, hidden: Stream, att: Option<Stream>, start: nat): Option<Stream> {
    if att.None? || |att.value| < start + |hidden| then None
    else
      Some(seq(|hidden|, i requires 0 <= i < |hidden| => BlockToken(m, layer, hidden[i], att.value[start + i])))
  }

  function BlockToken(m: Model, layer: Layer, h: Vec, a: Vec): Vec {
    var r := m.add(layer.oProj(a), h);
    m.add(layer.mlp(layer.postNorm(r)), r)
  }

  /** The loop of `forward` over the two streams after attention. */
  function AfterAttention(m: Model, idx: nat, inp: Inputs, outputs: seq<Option<Stream>>): Option<Inputs>
    requires WellFormed(m) && idx < |m.vlm|
  {
    if outputs == [] then None
    else
      var prefix := if inp.prefix.None? then Some(None)
                    else match Block(m, m.vlm[idx], inp.prefix.value, outputs[0], 0)
                         case None => None
                         case Some(s) => Some(Some(s));
      var start := if inp.prefix.Some? && |outputs| == 1 then |inp.prefix.value| else 0;
      var suffix := if inp.suffix.None? || ExpertAt(m, idx).None? then Some(inp.suffix)
                    else match Block(m, ExpertAt(m, idx).value, inp.suffix.value,
                                     if |outputs| > 1 then outputs[1] else outputs[0], start)
                         case None => None
                         case Some(s) => Some(Some(s));
      if prefix.None? || suffix.None? then None else Some(Inputs(prefix.value, suffix.value))
  }

  datatype Run = Run(inp: Inputs, past: Option<Cache>)

  function LayerStep(m: Model, idx: nat, st: Run, positions: seq<int>, mask: Mask,
      useCache: bool, fill: bool): Option<Run>
    requires WellFormed(m) && idx < |m.vlm|
  {
    var att := if UsesSelfAttention(m, idx, fill)
               then SelfAttentionLayer(m, idx, st.inp, positions, mask, useCache, fill, st.past)
               else CrossAttentionLayer(m, idx, st.inp, positions, mask, useCache, fill, st.past);
    if att.None? then None
    else
      match AfterAttention(m, idx, st.inp, att.value.outputs)
      case None => None
      case Some(inp) => Some(Run(inp, att.value.past))
  }

  /** The layers from `idx` on. */
  function RunLayers(m: Model, idx: nat, st: Run, positions: seq<int>, mask: Mask,
      useCache: bool, fill: bool): Option<Run>
    requires WellFormed(m) && idx <= |m.vlm|
    decreases |m.vlm| - idx
  {
    if idx == |m.vlm| then Some(st)
    else
      match LayerStep(m, idx, st, positions, mask, useCache, fill)
      case None => None
      case Some(st') => RunLayers(m, idx + 1, st', positions, mask, useCache, fill)
  }

  function FinalNorm(f: Vec -> Vec, s: Option<Stream>): Option<Stream> {
    if s.None? then None else Some(MapVec(f, s.value))
  }

  /** `forward`. */
  function Forward(m: Model, inp: Inputs, positions: seq<int>, mask: Mask,
      useCache: bool, fill: bool, past: Option<Cache>): Option<Run>
    requires WellFormed(m)
  {
    match RunLayers(m, 0, Run(inp, past), positions, mask, useCache, fill)
    case None => None
    case Some(st) =>
      Some(Run(Inputs(FinalNorm(m.vlmNorm, st.inp.prefix), FinalNorm(m.expertNorm, st.inp.suffix)), st.past))
  }

  /******* The three passes *******/

  /** Inference, first call: the prefix alone, filling the cache. */
  function FillPass(m: Model, prefix: Stream, pads: seq<bool>, atts: seq<bool>): Option<Run>
    requires WellFormed(m) && |prefix| == |pads| == |atts|
  {
    Forward(m, Inputs(Some(prefix), None), PositionIds(pads), MakeAtt2dMasks(pads, atts), true, true, None)
  }

  /** Inference, each denoising step: the suffix against the cache. */
  function DenoisePass(m: Model, pads: seq<bool>, past: Option<Cache>, suffix: Stream): Option<Run>
    requires WellFormed(m)
  {
    Forward(m, Inputs(None, Some(suffix)), DenoisePositions(pads, |suffix|), DenoiseMask(pads, |suffix|),
            true, false, past)
  }

  /** Training: both streams in one pass. */
  function JointPass(m: Model, prefix: Stream, pads: seq<bool>, atts: seq<bool>, suffix: Stream): Option<Run>
    requires WellFormed(m) && |prefix| == |pads| == |atts|
  {
    Forward(m, Inputs(Some(prefix), Some(suffix)), JointPositions(pads, |suffix|), JointMask(pads, atts, |suffix|),
            false, false, None)
  }
}
