/** The prefix of a SmolVLA pass: image tokens, then language tokens, then state tokens, padded at the
    end to the configured length. */
module PrefixEmbedding {
  import opened Wrappers
  import opened Vectors
  import opened CachedAttention

  /** One camera: its embedded tokens and whether the camera is present. */
  datatype Image = Image(tokens: Stream, present: bool)

  /** The tokens put before and after every image, when the configuration asks for them. */
  datatype Special = Special(open: Stream, close: Stream)

  /** Token embeddings with their padding flags and attention-block flags. */
  datatype Prefix = Prefix(embs: Stream, pads: seq<bool>, atts: seq<bool>)

  /******* Where everything stands *******/

  /** How many tokens a camera takes. */
  function CameraLength(special: Option<Special>, img: Image): nat {
    |img.tokens| + if special.None? then 0 else |special.value.open| + |special.value.close|
  }

  /** Where camera `k` begins: behind the cameras before it. */
  function StartOf(special: Option<Special>, images: seq<Image>, k: nat): nat
    requires k <= |images|
  {
    if k == 0 then 0 else StartOf(special, images, k - 1) + CameraLength(special, images[k - 1])
  }

  /** Tokens that stand at a place, all of them padded or none. */
  ghost predicate Stand(embs: Stream, pads: seq<bool>, at: nat, tokens: Stream, unpadded: bool) {
    && |embs| == |pads| && at + |tokens| <= |embs| && embs[at..at + |tokens|] == tokens
    && forall i :: at <= i < at + |tokens| ==> pads[i] == unpadded
  }

  /** A camera's special tokens are unpadded; its own are padded exactly when it is absent. */
  ghost predicate CameraStands(embs: Stream, pads: seq<bool>, special: Option<Special>, img: Image, at: nat) {
    match special
    case None => Stand(embs, pads, at, img.tokens, img.present)
    case Some(s) =>
      && Stand(embs, pads, at, s.open, true)
      && Stand(embs, pads, at + |s.open|, img.tokens, img.present)
      && Stand(embs, pads, at + |s.open| + |img.tokens|, s.close, true)
  }

  /** The whole prefix: the cameras one behind the other, language with its own mask, the state tokens,
      unpadded, and padding up to the configured length.  State tokens alone begin attention blocks. */
  ghost predicate Laid(p: Prefix, special: Option<Special>, images: seq<Image>, lang: Stream, langMask: seq<bool>,
      state: Stream, prefixLength: int, zero: Vec)
  {
    var words := StartOf(special, images, |images|);
    var states := words + |lang|;
    var end := states + |state|;
    && |p.embs| == |p.pads| == |p.atts| == (if end < prefixLength then prefixLength else end)
    && (forall k :: 0 <= k < |images| ==>
         CameraStands(p.embs, p.pads, special, images[k], StartOf(special, images, k)))
    && p.embs[words..states] == lang && p.pads[words..states] == langMask
    && Stand(p.embs, p.pads, states, state, true)
    && (forall i :: end <= i < |p.embs| ==> p.embs[i] == zero && !p.pads[i])
    && (forall i :: 0 <= i < |p.atts| ==> p.atts[i] == (states <= i < end))
  }

  /******* Building it *******/

  lemma StandsOn(embs: Stream, pads: seq<bool>, more: Stream, morePads: seq<bool>, at: nat, tokens: Stream,
      unpadded: bool)
    requires Stand(embs, pads, at, tokens, unpadded) && |more| == |morePads|
    ensures Stand(embs + more, pads + morePads, at, tokens, unpadded)
  {
    assert (embs + more)[at..at + |tokens|] == embs[at..at + |tokens|];
  }

  lemma CameraStandsOn(embs: Stream, pads: seq<bool>, more: Stream, morePads: seq<bool>, special: Option<Special>,
      img: Image, at: nat)
    requires CameraStands(embs, pads, special, img, at) && |more| == |morePads|
    ensures CameraStands(embs + more, pads + morePads, special, img, at)
  {
    hide Stand;
    match special
    case None => StandsOn(embs, pads, more, morePads, at, img.tokens, img.present);
    case Some(s) =>
      StandsOn(embs, pads, more, morePads, at, s.open, true);
      StandsOn(embs, pads, more, morePads, at + |s.open|, img.tokens, img.present);
      StandsOn(embs, pads, more, morePads, at + |s.open| + |img.tokens|, s.close, true);
  }

  lemma Appended(embs: Stream, pads: seq<bool>, tokens: Stream, unpadded: bool)
    requires |embs| == |pads|
    ensures Stand(embs + tokens, pads + Same(|tokens|, unpadded), |embs|, tokens, unpadded)
  {
  }

  lemma SameJoined(a: nat, b: nat, v: bool)
    ensures Same(a, v) + Same(b, v) == Same(a + b, v)
  {
  }

  /** One camera, with the special tokens around it, behind what is there. */
  method EmbedImage(embs0: Stream, pads0: seq<bool>, special: Option<Special>, img: Image)
      returns (embs: Stream, pads: seq<bool>, atts: seq<bool>)
    requires |embs0| == |pads0|
    ensures |embs| == |pads| == |embs0| + CameraLength(special, img) && embs0 <= embs && pads0 <= pads
    ensures CameraStands(embs, pads, special, img, |embs0|)
    ensures atts == Same(CameraLength(special, img), false)
  {
    hide Same, Stand;
    var n := |img.tokens|;
    match special {
      case None =>
        Appended(embs0, pads0, img.tokens, img.present);
        embs, pads, atts := embs0 + img.tokens, pads0 + Same(n, img.present), Same(n, false);
      case Some(s) =>
        Appended(embs0, pads0, s.open, true);
        embs, pads, atts := embs0 + s.open, pads0 + Same(|s.open|, true), Same(|s.open|, false);
        StandsOn(embs, pads, img.tokens, Same(n, img.present), |embs0|, s.open, true);
        Appended(embs, pads, img.tokens, img.present);
        embs, pads, atts := embs + img.tokens, pads + Same(n, img.present), atts + Same(n, false);
        SameJoined(|s.open|, n, false);
        StandsOn(embs, pads, s.close, Same(|s.close|, true), |embs0|, s.open, true);
        StandsOn(embs, pads, s.close, Same(|s.close|, true), |embs0| + |s.open|, img.tokens, img.present);
        Appended(embs, pads, s.close, true);
        embs, pads, atts := embs + s.close, pads + Same(|s.close|, true), atts + Same(|s.close|, false);
        SameJoined(|s.open| + n, |s.close|, false);
    }
  }

  ghost predicate CamerasStand(embs: Stream, pads: seq<bool>, special: Option<Special>, images: seq<Image>, n: nat)
    requires n <= |images|
  {
    forall k :: 0 <= k < n ==> CameraStands(embs, pads, special, images[k], StartOf(special, images, k))
  }

  lemma CamerasStandOn(embs: Stream, pads: seq<bool>, embs': Stream, pads': seq<bool>, special: Option<Special>,
      images: seq<Image>, n: nat)
    requires n <= |images| && CamerasStand(embs, pads, special, images, n)
    requires embs <= embs' && pads <= pads' && |embs| == |pads| && |embs'| == |pads'|
    ensures CamerasStand(embs', pads', special, images, n)
  {
    hide CameraStands, StartOf;
    forall k | 0 <= k < n ensures CameraStands(embs', pads', special, images[k], StartOf(special, images, k)) {
      CameraStandsOn(embs, pads, embs'[|embs|..], pads'[|pads|..], special, images[k], StartOf(special, images, k));
      assert embs + embs'[|embs|..] == embs' && pads + pads'[|pads|..] == pads';
    }
  }

  /** The loop over the cameras. */
  method EmbedImages(special: Option<Special>, images: seq<Image>)
      returns (embs: Stream, pads: seq<bool>, atts: seq<bool>)
    ensures |embs| == |pads| == StartOf(special, images, |images|) && atts == Same(|embs|, false)
    ensures CamerasStand(embs, pads, special, images, |images|)
  {
    hide Same, CameraStands, StartOf, CamerasStand;
    embs, pads, atts := [], [], [];
    NoneStand(special, images);
    for i := 0 to |images|
      invariant |embs| == |pads| == StartOf(special, images, i) && atts == Same(|embs|, false)
      invariant CamerasStand(embs, pads, special, images, i)
    {
      var embs', pads', more := EmbedImage(embs, pads, special, images[i]);
      CamerasStandOn(embs, pads, embs', pads', special, images, i);
      OneMoreStands(embs', pads', special, images, i);
      StartNext(special, images, i);
      SameJoined(|embs|, CameraLength(special, images[i]), false);
      embs, pads, atts := embs', pads', atts + more;
    }
  }

  lemma NoneStand(special: Option<Special>, images: seq<Image>)
    ensures Same(0, false) == [] && StartOf(special, images, 0) == 0 && CamerasStand([], [], special, images, 0)
  {
  }

  lemma OneMoreStands(embs: Stream, pads: seq<bool>, special: Option<Special>, images: seq<Image>, n: nat)
    requires n < |images| && CamerasStand(embs, pads, special, images, n)
    requires CameraStands(embs, pads, special, images[n], StartOf(special, images, n))
    ensures CamerasStand(embs, pads, special, images, n + 1)
  {
    hide CameraStands, StartOf;
  }

  lemma StartNext(special: Option<Special>, images: seq<Image>, n: nat)
    requires n < |images|
    ensures StartOf(special, images, n + 1) == StartOf(special, images, n) + CameraLength(special, images[n])
  {
  }

  /** What is put behind the cameras. */
  lemma RestStands(embs: Stream, pads: seq<bool>, lang: Stream, langMask: seq<bool>, state: Stream, k: nat, zero: Vec)
    requires |embs| == |pads| && |lang| == |langMask|
    ensures var all := embs + lang + state + Same(k, zero);
      var flags := pads + langMask + Same(|state|, true) + Same(k, false);
      var atts := Same(|embs|, false) + Same(|lang|, false) + Same(|state|, true) + Same(k, false);
      var words, states, end := |embs|, |embs| + |lang|, |embs| + |lang| + |state|;
      && |all| == |flags| == |atts| == end + k && embs <= all && pads <= flags
      && all[words..states] == lang && flags[words..states] == langMask
      && Stand(all, flags, states, state, true)
      && (forall i :: end <= i < |all| ==> all[i] == zero && !flags[i])
      && (forall i :: 0 <= i < |atts| ==> atts[i] == (states <= i < end))
  {
    var all, states := embs + lang + state + Same(k, zero), |embs| + |lang|;
    assert all[states..states + |state|] == state;
  }

  /** `embed_prefix`. */
  method EmbedPrefix(special: Option<Special>, images: seq<Image>, lang: Stream, langMask: seq<bool>, state: Stream,
      prefixLength: int, zero: Vec) returns (p: Prefix)
    requires |lang| == |langMask|
    ensures Laid(p, special, images, lang, langMask, state, prefixLength, zero)
  {
    hide CameraStands, StartOf, Stand, Same;
    var embs, pads, atts := EmbedImages(special, images);
    ghost var embs0, pads0 := embs, pads;
    var end := |embs| + |lang| + |state|;
    var k := if end < prefixLength then prefixLength - end else 0;
    embs, pads, atts := embs + lang, pads + langMask, atts + Same(|lang|, false);
    embs, pads, atts := embs + state, pads + Same(|state|, true), atts + Same(|state|, true);
    if end < prefixLength {
      embs, pads, atts := embs + Same(k, zero), pads + Same(k, false), atts + Same(k, false);
    } else {
      NoPadding(embs, pads, atts, zero);
    }
    RestStands(embs0, pads0, lang, langMask, state, k, zero);
    CamerasStandOn(embs0, pads0, embs, pads, special, images, |images|);
    p := Prefix(embs, pads, atts);
  }

  lemma NoPadding(embs: Stream, pads: seq<bool>, atts: seq<bool>, zero: Vec)
    ensures embs + Same(0, zero) == embs && pads + Same(0, false) == pads && atts + Same(0, false) == atts
  {
  }

  /******* Who sees whom *******/

  /** State tokens stand at `at`, unpadded, and alone begin attention blocks; only padding follows them. */
  ghost predicate Shaped(p: Prefix, at: nat, states: nat) {
    && |p.embs| == |p.pads| == |p.atts| >= at + states
    && (forall i :: at <= i < |p.pads| ==> p.pads[i] == (i < at + states))
    && (forall i :: 0 <= i < |p.atts| ==> p.atts[i] == (at <= i < at + states))
  }

  lemma LaidIsShaped(p: Prefix, special: Option<Special>, images: seq<Image>, lang: Stream, langMask: seq<bool>,
      state: Stream, prefixLength: int, zero: Vec)
    requires Laid(p, special, images, lang, langMask, state, prefixLength, zero)
    ensures Shaped(p, StartOf(special, images, |images|) + |lang|, |state|)
  {
    hide CameraStands, StartOf;
  }

  lemma {:induction false} CountBand(b: seq<bool>, start: nat, end: nat)
    requires start <= end && forall i :: 0 <= i < |b| ==> b[i] == (start <= i < end)
    ensures Count(b) == if |b| <= start then 0 else if |b| <= end then |b| - start else end - start
  {
    if b != [] {
      CountBand(b[..|b| - 1], start, end);
    }
  }

  /** How many attention blocks begin at or before position `i`. */
  lemma BlockNumber(p: Prefix, at: nat, states: nat, i: nat)
    requires Shaped(p, at, states) && i < |p.atts|
    ensures CumSum(p.atts)[i] == if i < at then 0 else if i < at + states then i - at + 1 else states
  {
    CountBand(p.atts[..i + 1], at, at + states);
  }

  /** Who sees whom: an unpadded context token sees exactly the unpadded context, a state token sees
      that and the state tokens up to itself, padding neither sees nor is seen. */
  lemma PrefixBlocks(p: Prefix, at: nat, states: nat, i: nat, j: nat)
    requires Shaped(p, at, states) && i < |p.pads| && j < |p.pads|
    ensures MakeAtt2dMasks(p.pads, p.atts)[i][j]
      <==> p.pads[i] && p.pads[j] && (j < at || at <= j <= i)
  {
    hide Count;
    BlockNumber(p, at, states, i);
    BlockNumber(p, at, states, j);
  }
}
