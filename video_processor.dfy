/** The video verdict pipeline: load the network on first use, sample frames
    from the uploaded video, score each sampled frame, and aggregate the
    scores into one verdict. */
module VideoProcessing {
  import opened Media
  import opened FrameSampling
  import opened Scoring

  /** One frame in every `DefaultSkipFrames` is kept unless a caller asks otherwise. */
  const DefaultSkipFrames := 30

  /** Where the trained weights are read from when no network is loaded yet. */
  const ModelPath := "D:/hackathonn/researchaton/backend/processors/best_model.pth"

  /** What a prediction on the video that decodes to `capture` yields when
      frames are sampled with stride `skip` and scored with `classify`: the
      sampling error if there is one, an error if no frame was kept, and the
      aggregated verdict otherwise. */
  function Run(capture: Capture, skip: int, prepare: RawFrame -> Frame,
               transform: Frame -> Tensor, classify: Classifier): Result<Prediction>
  {
    match Extract(capture, skip, prepare)
    case Err(e) => Err(e)
    case Ok(frames) =>
      if |frames| == 0 then Err(NoFrames)
      else Ok(Aggregate(FrameScores(classify, transform, frames)))
  }

  class VideoProcessor {
    /** The loaded network; None until the first prediction loads it. */
    var model: Option<Classifier>

    /** Writes the uploaded bytes to a temporary file and opens it with the
        video decoder. */
    const decode: Bytes -> Capture

    /** Resizes a decoded frame to 224x224 and converts it from BGR to RGB. */
    const prepare: RawFrame -> Frame

    /** Builds the network input of a frame (image conversion, resize, scaling
        to a tensor, batch dimension). */
    const transform: Frame -> Tensor

    /** The network built from the weights stored at a path. */
    const loadWeights: string -> Classifier

    constructor (decode: Bytes -> Capture, prepare: RawFrame -> Frame,
                 transform: Frame -> Tensor, loadWeights: string -> Classifier)
      ensures model == None
      ensures this.decode == decode && this.prepare == prepare
      ensures this.transform == transform && this.loadWeights == loadWeights
    {
      this.decode := decode;
      this.prepare := prepare;
      this.transform := transform;
      this.loadWeights := loadWeights;
      model := None;
    }

    /** Loads the network from the weights at `modelPath`, replacing any
        network loaded before. */
    method LoadModel(modelPath: string)
      modifies this
      ensures model == Some(loadWeights(modelPath))
    {
      model := Some(loadWeights(modelPath));
    }

    /** Reads the decoded frames one by one and keeps, prepared, those whose
        decode index is a multiple of `skipFrames`. */
    method ExtractFrames(videoBytes: Bytes, skipFrames: int) returns (r: Result<seq<Frame>>)
      ensures r == Extract(decode(videoBytes), skipFrames, prepare)
    {
      var capture := decode(videoBytes);
      if capture.NotOpened? {
        return Err(CaptureNotOpened);
      }
      var decoded := capture.frames;
      var frames: seq<Frame> := [];
      var frameIndex := 0;
      while true
        invariant 0 <= frameIndex <= |decoded|
        invariant frames == SampledFrames(decoded[..frameIndex], skipFrames, prepare)
        invariant skipFrames == 0 ==> frameIndex == 0
        decreases |decoded| - frameIndex
      {
        if frameIndex == |decoded| {
          break;  // the decoder has no more frames
        }
        var frame := decoded[frameIndex];
        if skipFrames == 0 {
          return Err(ZeroStride);
        }
        assert decoded[..frameIndex + 1][..frameIndex] == decoded[..frameIndex];
        if frameIndex % skipFrames == 0 {
          frames := frames + [prepare(frame)];
        }
        frameIndex := frameIndex + 1;
      }
      assert decoded[..frameIndex] == decoded;
      return Ok(frames);
    }

    /** Runs the loaded network on each frame, collecting one probability of
        "real" per frame. */
    method PredictFrames(frames: seq<Frame>) returns (probs: seq<real>)
      requires model.Some?
      ensures probs == FrameScores(model.value, transform, frames)
    {
      probs := [];
      for i := 0 to |frames|
        invariant probs == FrameScores(model.value, transform, frames[..i])
      {
        var prob := model.value(transform(frames[i]));
        probs := probs + [prob];
      }
      assert frames[..|frames|] == frames;
    }

    /** Loads the network if none is loaded, then samples, scores and
        aggregates. */
    method PredictVideo(videoBytes: Bytes) returns (r: Result<Prediction>)
      modifies this
      ensures model == if old(model).Some? then old(model) else Some(loadWeights(ModelPath))
      ensures r == Run(decode(videoBytes), DefaultSkipFrames, prepare, transform, model.value)
    {
      if model.None? {
        LoadModel(ModelPath);
      }
      var extracted := ExtractFrames(videoBytes, DefaultSkipFrames);
      if extracted.Err? {
        return Err(extracted.error);
      }
      var frames := extracted.value;
      if |frames| == 0 {
        return Err(NoFrames);
      }
      var probs := PredictFrames(frames);
      return Ok(Aggregate(probs));
    }

    /** The wrapper kept for a web route: the same as PredictVideo. */
    method ProcessVideo(videoBytes: Bytes) returns (r: Result<Prediction>)
      modifies this
      ensures model == if old(model).Some? then old(model) else Some(loadWeights(ModelPath))
      ensures r == Run(decode(videoBytes), DefaultSkipFrames, prepare, transform, model.value)
    {
      r := PredictVideo(videoBytes);
    }
  }

  /** With a positive stride, a prediction fails for want of frames exactly
      when the video opens but decodes to no frame, and then its outcome does
      not depend on the classifier: no frame is ever scored. */
  lemma NoFramesIgnoresClassifier(capture: Capture, skip: int, prepare: RawFrame -> Frame,
                                  transform: Frame -> Tensor, classify: Classifier, other: Classifier)
    requires skip > 0
    ensures Run(capture, skip, prepare, transform, classify) == Err(NoFrames) <==> capture == Opened([])
    ensures Run(capture, skip, prepare, transform, classify) == Err(NoFrames) ==>
              Run(capture, skip, prepare, transform, other) == Err(NoFrames)
  {
    if capture.Opened? {
      SampledFramesEmptyIff(capture.frames, skip, prepare);
    }
  }

  /** A video that the decoder cannot open fails before any frame is scored,
      whatever the stride and the classifier. */
  lemma NotOpenedFails(skip: int, prepare: RawFrame -> Frame, transform: Frame -> Tensor, classify: Classifier)
    ensures Run(NotOpened, skip, prepare, transform, classify) == Err(CaptureNotOpened)
  {
  }

  /** A successful prediction over N decoded frames with stride S carries
      ceil(N / S) frame scores, the k-th being the classifier's probability for
      the frame decoded at index k * S; its label is "real" exactly when their
      mean exceeds one half, it is fake exactly when labelled "fake", and its
      confidence, the probability of that label, lies in [0.5, 1]. */
  lemma SuccessfulRun(decoded: seq<RawFrame>, skip: int, prepare: RawFrame -> Frame,
                      transform: Frame -> Tensor, classify: Classifier)
    requires skip > 0 && decoded != []
    ensures Run(Opened(decoded), skip, prepare, transform, classify).Ok?
    ensures var p := Run(Opened(decoded), skip, prepare, transform, classify).value;
      && |p.frameScores| == CeilDiv(|decoded|, skip)
      && (forall k :: 0 <= k < |p.frameScores| ==>
            k * skip < |decoded| && p.frameScores[k] == classify(transform(prepare(decoded[k * skip]))))
      && (p.prediction == "real" <==> Mean(p.frameScores) > 0.5)
      && (p.isFake <==> p.prediction == "fake")
      && p.confidence == (if p.isFake then 1.0 - Mean(p.frameScores) else Mean(p.frameScores))
      && 0.5 <= p.confidence <= 1.0
  {
    var frames := SampledFrames(decoded, skip, prepare);
    SampledFramesStride(decoded, skip, prepare);
    SampledFramesEmptyIff(decoded, skip, prepare);
    var probs := FrameScores(classify, transform, frames);
    ConfidenceInUpperHalf(probs);
  }

  /** A video of 90 frames sampled every 30 frames, whose three sampled frames
      score 0.9, 0.2 and 0.8, is real with confidence 1.9 / 3 and keeps the
      three scores in order. */
  lemma NinetyFramesExample(decoded: seq<RawFrame>, prepare: RawFrame -> Frame,
                            transform: Frame -> Tensor, classify: Classifier)
    requires |decoded| == 90
    requires classify(transform(prepare(decoded[0]))) == 0.9
    requires classify(transform(prepare(decoded[30]))) == 0.2
    requires classify(transform(prepare(decoded[60]))) == 0.8
    ensures Run(Opened(decoded), DefaultSkipFrames, prepare, transform, classify)
            == Ok(Prediction("real", 1.9 / 3.0, false, [0.9, 0.2, 0.8]))
  {
    var frames := SampledFrames(decoded, DefaultSkipFrames, prepare);
    SampledFramesStride(decoded, DefaultSkipFrames, prepare);
    assert CeilDiv(90, 30) == 3;
    var probs := FrameScores(classify, transform, frames);
    assert probs == [0.9, 0.2, 0.8];
    assert Sum(probs) == 1.9 by {
      var one: seq<real>, two: seq<real> := [0.9], [0.9, 0.2];
      assert one[..0] == [] && Sum(one) == 0.9;
      assert two[..1] == one && Sum(two) == 1.1;
      assert probs[..2] == two;
    }
  }
}
