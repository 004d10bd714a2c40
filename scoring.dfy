/** Per-frame scores and the video-level verdict built from them: the mean of
    the scores against a strict 0.5 threshold, with the confidence always
    given for the reported label. */
module Scoring {
  import opened Media

  /** The class names, indexed by the predicted class: 0 is fake, 1 is real. */
  const ClassNames: seq<string> := ["fake", "real"]

  /** The result of a video prediction. */
  datatype Prediction = Prediction(
    prediction: string,      // "fake" or "real"
    confidence: real,        // probability of the reported label
    isFake: bool,
    frameScores: seq<real>)  // the per-frame probabilities of "real", in frame order

  /** Every element of `s` lies in [0, 1]. */
  predicate AreProbabilities(s: seq<real>) {
    forall k :: 0 <= k < |s| ==> 0.0 <= s[k] <= 1.0
  }

  /** The probabilities the classifier gives the frames, one per frame and in
      frame order. `transform` builds the network input of a frame. */
  function FrameScores(classify: Classifier, transform: Frame -> Tensor, frames: seq<Frame>): (probs: seq<real>)
    ensures |probs| == |frames|
    ensures forall k :: 0 <= k < |frames| ==> probs[k] == classify(transform(frames[k]))
    ensures AreProbabilities(probs)
  {
    if frames == [] then []
    else
      var last := |frames| - 1;
      FrameScores(classify, transform, frames[..last]) + [classify(transform(frames[last]))]
  }

  function Sum(s: seq<real>): real {
    if s == [] then 0.0 else Sum(s[..|s| - 1]) + s[|s| - 1]
  }

  /** The arithmetic mean, over exact reals. */
  function Mean(s: seq<real>): real
    requires |s| > 0
  {
    Sum(s) / (|s| as real)
  }

  /** The verdict for the non-empty score list `probs`. */
  function Aggregate(probs: seq<real>): (r: Prediction)
    requires |probs| > 0
    ensures r.prediction == "real" || r.prediction == "fake"
    ensures r.prediction == "real" <==> Mean(probs) > 0.5
    ensures r.isFake <==> r.prediction == "fake"
    ensures r.confidence == if r.prediction == "real" then Mean(probs) else 1.0 - Mean(probs)
    ensures r.frameScores == probs
  {
    var meanProb := Mean(probs);
    var predictedIndex := if meanProb > 0.5 then 1 else 0;
    var className := ClassNames[predictedIndex];
    var isFake := className == "fake";
    var confidence := if isFake then 1.0 - meanProb else meanProb;
    Prediction(className, confidence, isFake, probs)
  }

  /** Bounds on every element bound the sum. */
  lemma {:induction false} SumBounds(s: seq<real>, lo: real, hi: real)
    requires forall k :: 0 <= k < |s| ==> lo <= s[k] <= hi
    ensures lo * (|s| as real) <= Sum(s) <= hi * (|s| as real)
  {
    if s != [] {
      SumBounds(s[..|s| - 1], lo, hi);
    }
  }

  /** A strict lower bound on every element of a non-empty list, times the
      length, is a strict lower bound of the sum. */
  lemma {:induction false} SumAbove(s: seq<real>, lo: real)
    requires forall k :: 0 <= k < |s| ==> lo < s[k]
    ensures s != [] ==> lo * (|s| as real) < Sum(s)
  {
    if s != [] {
      SumAbove(s[..|s| - 1], lo);
    }
  }

  /** A strict upper bound on every element of a non-empty list, times the
      length, is a strict upper bound of the sum. */
  lemma {:induction false} SumBelow(s: seq<real>, hi: real)
    requires forall k :: 0 <= k < |s| ==> s[k] < hi
    ensures s != [] ==> Sum(s) < hi * (|s| as real)
  {
    if s != [] {
      SumBelow(s[..|s| - 1], hi);
    }
  }

  /** The mean of probabilities is a probability. */
  lemma MeanIsProbability(probs: seq<real>)
    requires |probs| > 0 && AreProbabilities(probs)
    ensures 0.0 <= Mean(probs) <= 1.0
  {
    SumBounds(probs, 0.0, 1.0);
  }

  /** The confidence reported for probabilities never drops below one half:
      it is the probability of the label chosen, which is the likelier one. */
  lemma ConfidenceInUpperHalf(probs: seq<real>)
    requires |probs| > 0 && AreProbabilities(probs)
    ensures 0.5 <= Aggregate(probs).confidence <= 1.0
  {
    MeanIsProbability(probs);
  }

  /** A mean of exactly one half is resolved as fake, with confidence one half. */
  lemma TieIsFake(probs: seq<real>)
    requires |probs| > 0 && Mean(probs) == 0.5
    ensures Aggregate(probs).prediction == "fake" && Aggregate(probs).isFake
    ensures Aggregate(probs).confidence == 0.5
  {
  }

  /** When every frame scores above one half the video is real, with the mean
      as confidence. */
  lemma AllAboveHalfIsReal(probs: seq<real>)
    requires |probs| > 0
    requires forall k :: 0 <= k < |probs| ==> probs[k] > 0.5
    ensures Aggregate(probs).prediction == "real" && !Aggregate(probs).isFake
    ensures Aggregate(probs).confidence == Mean(probs)
  {
    SumAbove(probs, 0.5);
  }

  /** When every frame scores below one half the video is fake, with one minus
      the mean as confidence. */
  lemma AllBelowHalfIsFake(probs: seq<real>)
    requires |probs| > 0
    requires forall k :: 0 <= k < |probs| ==> probs[k] < 0.5
    ensures Aggregate(probs).prediction == "fake" && Aggregate(probs).isFake
    ensures Aggregate(probs).confidence == 1.0 - Mean(probs)
  {
    SumBelow(probs, 0.5);
  }
}
