/** Inference as the program runs it: one cache object, filled in place by the prefix pass and read
    by every denoising step of the Euler loop. */
module ActionSampling {
  import opened Wrappers
  import opened Vectors
  import opened CachedAttention
  import opened CacheCorrectness
  import opened PrefixEmbedding
  import opened InferenceReference

  /** The `past_key_values` dictionary. */
  class KvCache {
    var entries: Cache

    constructor (entries: Cache)
      ensures this.entries == entries
    {
      this.entries := entries;
    }
  }

  ghost function View(past: KvCache?): Option<Cache>
    reads past
  {
    if past == null then None else Some(past.entries)
  }

  /** Without `fill_kv_cache` no layer changes the dictionary. */
  lemma StepKeepsCache(m: Model, idx: nat, st: Run, positions: seq<int>, mask: Mask, useCache: bool)
    requires WellFormed(m) && idx < |m.vlm|
    ensures var r := LayerStep(m, idx, st, positions, mask, useCache, false);
      r.Some? ==> r.value.past == st.past
  {
    hide Attention, AfterAttention, Joined, ExpertCross, ExpertAt;
  }

  /** `forward`, with the dictionary updated in place. */
  method ForwardInPlace(m: Model, inp: Inputs, positions: seq<int>, mask: Mask, useCache: bool, fill: bool,
      past: KvCache?)
      returns (r: Option<Inputs>, past': KvCache?)
    requires WellFormed(m)
    modifies past
    ensures past' == past || (past == null && past' != null && fresh(past'))
    ensures !fill ==> past' == past && View(past) == old(View(past))
    ensures match Forward(m, inp, positions, mask, useCache, fill, old(View(past)))
            case None => r.None?
            case Some(run) => r == Some(run.inp) && View(past') == run.past
  {
    hide LayerStep;
    var current := inp;
    past' := past;
    ghost var start := Run(inp, View(past));
    for idx := 0 to |m.vlm|
      invariant past' == past || (past == null && past' != null && fresh(past'))
      invariant !fill ==> past' == past && View(past) == old(View(past))
      invariant RunLayers(m, 0, start, positions, mask, useCache, fill)
             == RunLayers(m, idx, Run(current, View(past')), positions, mask, useCache, fill)
    {
      var before: Option<Cache> := if past' == null then None else Some(past'.entries);
      var next := LayerStep(m, idx, Run(current, before), positions, mask, useCache, fill);
      if next.None? {
        return None, past';
      }
      if !fill {
        StepKeepsCache(m, idx, Run(current, before), positions, mask, useCache);
      } else {
        StepPastStays(m, idx, Run(current, before), positions, mask, useCache);
      }
      if next.value.past.Some? {
        if past' == null {
          past' := new KvCache(next.value.past.value);
        } else {
          past'.entries := next.value.past.value;
        }
      }
      current := next.value.inp;
    }
    r := Some(Inputs(FinalNorm(m.vlmNorm, current.prefix), FinalNorm(m.expertNorm, current.suffix)));
  }

  lemma StepPastStays(m: Model, idx: nat, st: Run, positions: seq<int>, mask: Mask, useCache: bool)
    requires WellFormed(m) && idx < |m.vlm|
    ensures var r := LayerStep(m, idx, st, positions, mask, useCache, true);
      r.Some? && st.past.Some? ==> r.value.past.Some?
  {
    hide Attention, AfterAttention, Joined, ExpertCross, ExpertAt;
  }

  /** The flow-matching head around the transformer: per-token embedding of a noisy action at a time,
      output projection, and `x + dt * v`. */
  datatype Policy = Policy(
    model: Model,
    embed: (Vec, real) -> Vec,
    outProj: Vec -> Vec,
    advance: (Vec, real, Vec) -> Vec,
    numSteps: nat)

  function StepSize(p: Policy): real
    requires p.numSteps > 0
  {
    -1.0 / p.numSteps as real
  }

  function TimeAt(p: Policy, step: nat): real
    requires p.numSteps > 0
  {
    1.0 + step as real * StepSize(p)
  }

  function EmbedSuffix(p: Policy, x: Stream, time: real): (r: Stream)
    ensures |r| == |x|
  {
    seq(|x|, i requires 0 <= i < |x| => p.embed(x[i], time))
  }

  function EulerStep(p: Policy, x: Stream, dt: real, out: Option<Stream>): (r: Stream)
    ensures |r| == |x|
  {
    if out.None? || |out.value| != |x| then x
    else seq(|x|, i requires 0 <= i < |x| => p.advance(x[i], dt, p.outProj(out.value[i])))
  }

  /** The reference: every step runs the joint training pass from scratch. */
  ghost function JointSample(p: Policy, prefix: Stream, pads: seq<bool>, atts: seq<bool>, noise: Stream,
      step: nat): Stream
    requires WellFormed(p.model) && |prefix| == |pads| == |atts| && p.numSteps > 0
  {
    if step == 0 then noise
    else
      var x := JointSample(p, prefix, pads, atts, noise, step - 1);
      EulerStep(p, x, StepSize(p), JointSuffix(p, prefix, pads, atts, x, TimeAt(p, step - 1)))
  }

  /** The suffix the joint pass computes for a sample at a time. */
  ghost function JointSuffix(p: Policy, prefix: Stream, pads: seq<bool>, atts: seq<bool>, x: Stream,
      time: real): Option<Stream>
    requires WellFormed(p.model) && |prefix| == |pads| == |atts|
  {
    var run := JointPass(p.model, prefix, pads, atts, EmbedSuffix(p, x, time));
    if run.None? then None else run.value.inp.suffix
  }

  /** One denoising step against the filled cache. */
  lemma DenoiseIsJoint(p: Policy, prefix: Stream, pads: seq<bool>, atts: seq<bool>, x: Stream, time: real, w: nat)
    requires WellFormed(p.model) && |prefix| == |pads| == |atts| && w < |pads| && pads[w] && x != []
    ensures var fill, joint := FillPass(p.model, prefix, pads, atts), JointSuffix(p, prefix, pads, atts, x, time);
      fill.Some? &&
      DenoisePass(p.model, pads, fill.value.past, EmbedSuffix(p, x, time))
      == if BrokenFrom(p.model, 0) then None else Some(Run(Inputs(None, joint), fill.value.past))
  {
    hide Forward, MisfitFrom, BrokenFrom, FillPass, DenoisePass, JointPass;
    MisfitIsBroken(p.model, 0);
    CachedPassEqualsJointPass(p.model, prefix, pads, atts, EmbedSuffix(p, x, time), w);
  }

  /** One Euler step as the sampler promises it: step `k` of `n` is embedded at time `1 - k / n`, the velocity
      is read off the suffix behind all layers, and every token is advanced by `-1 / n` times it. */
  ghost predicate EulerTurn(p: Policy, prefix: Stream, pads: seq<bool>, atts: seq<bool>, x: Stream, k: nat, x': Stream)
    requires WellFormed(p.model) && |prefix| == |pads| == |atts| && p.numSteps > 0
  {
    var m, n := p.model, p.numSteps as real;
    var suffix := seq(|x|, i requires 0 <= i < |x| => p.embed(x[i], 1.0 - k as real / n));
    var y := SuffixAfter(m, prefix, pads, atts, suffix, |m.vlm|);
    && |x'| == |x|
    && forall i :: 0 <= i < |x| ==> x'[i] == p.advance(x[i], -1.0 / n, p.outProj(m.expertNorm(y[i])))
  }

  /** The samples of a whole run, from the noise to the actions. */
  ghost predicate EulerRun(p: Policy, prefix: Stream, pads: seq<bool>, atts: seq<bool>, noise: Stream, xs: seq<Stream>)
    requires WellFormed(p.model) && |prefix| == |pads| == |atts| && p.numSteps > 0
  {
    && |xs| == p.numSteps + 1 && xs[0] == noise
    && forall k :: 0 <= k < p.numSteps ==> EulerTurn(p, prefix, pads, atts, xs[k], k, xs[k + 1])
  }

  lemma TimesAre(p: Policy, k: nat)
    requires p.numSteps > 0
    ensures StepSize(p) == -1.0 / p.numSteps as real && TimeAt(p, k) == 1.0 - k as real / p.numSteps as real
  {
    var n := p.numSteps as real;
    assert k as real * (-1.0 / n) == -(k as real / n);
  }

  lemma StepIsTurn(p: Policy, prefix: Stream, pads: seq<bool>, atts: seq<bool>, x: Stream, k: nat, w: nat)
    requires WellFormed(p.model) && |prefix| == |pads| == |atts| && p.numSteps > 0
    requires w < |pads| && pads[w] && x != [] && !BrokenFrom(p.model, 0)
    ensures EulerTurn(p, prefix, pads, atts, x, k,
                      EulerStep(p, x, StepSize(p), JointSuffix(p, prefix, pads, atts, x, TimeAt(p, k))))
  {
    hide StepSize, TimeAt, JointPass, SuffixAfter, PrefixAfter, WellFormed, BrokenFrom, MisfitFrom, Agree;
    TimesAre(p, k);
    var suffix := seq(|x|, i requires 0 <= i < |x| => p.embed(x[i], 1.0 - k as real / p.numSteps as real));
    assert EmbedSuffix(p, x, TimeAt(p, k)) == suffix;
    MisfitIsBroken(p.model, 0);
    TrainingIsReference(p.model, prefix, pads, atts, suffix, w);
  }

  lemma {:induction false} SampleLength(
      p: Policy, prefix: Stream, pads: seq<bool>, atts: seq<bool>, noise: Stream, step: nat)
    requires WellFormed(p.model) && |prefix| == |pads| == |atts| && p.numSteps > 0
    ensures |JointSample(p, prefix, pads, atts, noise, step)| == |noise|
  {
    hide EulerStep, JointSuffix, StepSize, TimeAt;
    if step > 0 {
      SampleLength(p, prefix, pads, atts, noise, step - 1);
    }
  }

  /** Sampling through the joint pass is such a run. */
  lemma SamplesAreRun(p: Policy, prefix: Stream, pads: seq<bool>, atts: seq<bool>, noise: Stream, w: nat)
      returns (xs: seq<Stream>)
    requires WellFormed(p.model) && |prefix| == |pads| == |atts| && p.numSteps > 0
    requires w < |pads| && pads[w] && noise != [] && !BrokenFrom(p.model, 0)
    ensures EulerRun(p, prefix, pads, atts, noise, xs)
    ensures xs[p.numSteps] == JointSample(p, prefix, pads, atts, noise, p.numSteps)
  {
    hide EulerStep, JointSuffix, StepSize, TimeAt, EulerTurn, WellFormed, BrokenFrom;
    xs := seq(p.numSteps + 1, k requires 0 <= k && WellFormed(p.model) => JointSample(p, prefix, pads, atts, noise, k));
    forall k | 0 <= k < p.numSteps ensures EulerTurn(p, prefix, pads, atts, xs[k], k, xs[k + 1]) {
      SampleLength(p, prefix, pads, atts, noise, k);
      StepIsTurn(p, prefix, pads, atts, xs[k], k, w);
    }
  }

  /** The cached part of `sample_actions`: fill once, then denoise `numSteps` times against the same
      dictionary.  The result is what the training pass would give at every step; it fails exactly when
      some layer is broken. */
  method DenoiseAll(p: Policy, prefix: Stream, pads: seq<bool>, atts: seq<bool>, noise: Stream, ghost w: nat)
      returns (r: Option<Stream>)
    requires WellFormed(p.model) && |prefix| == |pads| == |atts| && p.numSteps > 0
    requires w < |pads| && pads[w] && noise != []
    ensures r == if BrokenFrom(p.model, 0) then None
                 else Some(JointSample(p, prefix, pads, atts, noise, p.numSteps))
    ensures r.Some? ==> exists xs :: EulerRun(p, prefix, pads, atts, noise, xs) && r.value == xs[p.numSteps]
  {
    hide Forward, BrokenFrom, MakeAtt2dMasks, PositionIds, DenoiseMask, DenoisePositions, EmbedSuffix, EulerStep,
      JointSuffix, StepSize, TimeAt, EulerTurn;
    var m := p.model;
    var dt := StepSize(p);
    var _, cache := ForwardInPlace(m, Inputs(Some(prefix), None), PositionIds(pads), MakeAtt2dMasks(pads, atts),
      true, true, null);
    DenoiseIsJoint(p, prefix, pads, atts, noise, 1.0, w);
    ghost var filled := FillPass(m, prefix, pads, atts).value.past;
    var x := noise;
    for step := 0 to p.numSteps
      invariant View(cache) == filled
      invariant cache == null || fresh(cache)
      invariant |x| == |noise|
      invariant step > 0 ==> !BrokenFrom(m, 0)
      invariant x == JointSample(p, prefix, pads, atts, noise, step)
    {
      var time := TimeAt(p, step);
      var suffix := EmbedSuffix(p, x, time);
      DenoiseIsJoint(p, prefix, pads, atts, x, time, w);
      var out, _ := ForwardInPlace(m, Inputs(None, Some(suffix)), DenoisePositions(pads, |suffix|),
        DenoiseMask(pads, |suffix|), true, false, cache);
      if out.None? {
        return None;
      }
      x := EulerStep(p, x, dt, out.value.suffix);
    }
    ghost var xs := SamplesAreRun(p, prefix, pads, atts, noise, w);
    r := Some(x);
  }

  /** `sample_actions` from the embedded observation.  The state tokens are never padded, so every
      query has something to attend to.  `seen` is the prefix the observation was turned into. */
  method SampleActions(p: Policy, special: Option<Special>, images: seq<Image>, lang: Stream, langMask: seq<bool>,
      state: Stream, prefixLength: int, zero: Vec, noise: Stream) returns (r: Option<Stream>, seen: Prefix)
    requires WellFormed(p.model) && p.numSteps > 0 && |lang| == |langMask| && state != [] && noise != []
    ensures Laid(seen, special, images, lang, langMask, state, prefixLength, zero)
    ensures r == if BrokenFrom(p.model, 0) then None
                 else Some(JointSample(p, seen.embs, seen.pads, seen.atts, noise, p.numSteps))
    ensures r.Some? ==>
      exists xs :: EulerRun(p, seen.embs, seen.pads, seen.atts, noise, xs) && r.value == xs[p.numSteps]
  {
    hide CameraStands, Stand, StartOf, Laid;
    seen := EmbedPrefix(special, images, lang, langMask, state, prefixLength, zero);
    LaidIsShaped(seen, special, images, lang, langMask, state, prefixLength, zero);
    r := DenoiseAll(p, seen.embs, seen.pads, seen.atts, noise, StartOf(special, images, |images|) + |lang|);
  }
}
