# Video verdict pipeline

A Dafny model of the video detection path of the media authenticity
checker: `VideoProcessor` samples one frame in every 30 from an uploaded
video, scores each sampled frame with the image classifier (probability that
the frame is real), and aggregates the scores into one verdict. The verdict
is "real" when the mean score is strictly above 0.5 and "fake" otherwise. Its
confidence is the probability of the reported label. The per-frame scores
are returned unchanged.

Files:

- `media.dfy` (module `Media`): the bytes, frames and tensors, the
  classifier type (`Tensor -> Probability`, the network followed by the
  sigmoid), what the decoder makes of the bytes (`Capture`), and the outcomes
  (`Error`, `Result`, `Option`).
- `sampling.dfy` (module `FrameSampling`): stride sampling as a function over
  the decoded frame stream, with its count and index lemmas.
- `scoring.dfy` (module `Scoring`): the per-frame score list, the mean over
  exact reals, the decision and confidence rule, and the lemmas about them.
- `video_processor.dfy` (module `VideoProcessing`): the `VideoProcessor`
  class, with its lazily loaded `model` field and the loops of
  `extract_frames` and `predict_frames` as methods, the whole prediction as
  the function `Run`, and the pipeline lemmas.

The decoder, the resize and colour swap, the tensor transform and the weight
loading are foreign calls. They are `const` fields of the class, given to the
constructor as function values: `decode` (temporary file plus video capture),
`prepare` (resize to 224x224, BGR to RGB), `transform` (tensor conversion) and
`loadWeights` (network built from the weights at a path).

A stride of 0 is not rejected up front in the source. Instead, taking
`frame_index % skip_frames` raises a division-by-zero error on the first
decoded frame. The model reproduces this as the `ZeroStride` error, and only
when at least one frame is decoded. The pipeline itself always uses the
stride 30.

The source raises its own two failures as a plain `ValueError`: one when the video
cannot be opened (backend/processors/video_processor.py:54), the other when
no frame is extracted (line 107). The model keeps them as two distinct error
values so that the lemmas can say which failure happens. The temporary file
is created with `delete=False` (line 46) and is never removed afterwards, so
the model makes no claim about cleanup.

## Model

| member | source | states |
|---|---|---|
| `FrameSampling.SampledFrames` | backend/processors/video_processor.py:56-70 | sampling never yields more frames than were decoded |
| `FrameSampling.SampledFramesStride` | backend/processors/video_processor.py:57-70 | with stride S > 0 and N decoded frames, exactly ceil(N/S) frames are kept, and the k-th kept frame is the prepared frame at decode index k*S (indices 0, S, 2S, … in increasing order) |
| `FrameSampling.SampledFramesEmptyIff` | backend/processors/video_processor.py:57-70 | with a positive stride, sampling keeps no frame exactly when the decoder yields no frame |
| `VideoProcessing.VideoProcessor.ExtractFrames` | backend/processors/video_processor.py:40-73 | the read loop returns the error for a capture that does not open, the division-by-zero error for stride 0 on a non-empty stream, and otherwise exactly the sampled, prepared frames in decode order |
| `Scoring.FrameScores` | backend/processors/video_processor.py:83-94 | one score per frame, in frame order: the k-th score is the classifier's probability for the k-th frame, and every score lies in [0,1] |
| `VideoProcessing.VideoProcessor.PredictFrames` | backend/processors/video_processor.py:78-94 | the scoring loop over the loaded network returns exactly the per-frame score list, one probability per frame in order |
| `Scoring.Aggregate` | backend/processors/video_processor.py:111-124 | the label is "real" or "fake"; it is "real" iff the mean score is strictly above 0.5; `is_fake` holds iff the label is "fake"; confidence is the mean for "real" and one minus the mean for "fake"; the frame scores are returned unchanged |
| `Scoring.MeanIsProbability` | backend/processors/video_processor.py:111 | the mean of scores in [0,1] lies in [0,1] |
| `Scoring.ConfidenceInUpperHalf` | backend/processors/video_processor.py:111-117 | for scores in [0,1], the reported confidence lies in [0.5, 1] |
| `Scoring.TieIsFake` | backend/processors/video_processor.py:113-117 | a mean of exactly 0.5 gives label "fake", `is_fake` true and confidence 0.5 |
| `Scoring.AllAboveHalfIsReal` | backend/processors/video_processor.py:111-117 | if every frame scores above 0.5, the verdict is "real" with the mean as confidence |
| `Scoring.AllBelowHalfIsFake` | backend/processors/video_processor.py:111-117 | if every frame scores below 0.5, the verdict is "fake" with one minus the mean as confidence |
| `VideoProcessing.VideoProcessor.constructor` | backend/processors/video_processor.py:14-24 | a new processor has no network loaded |
| `VideoProcessing.VideoProcessor.LoadModel` | backend/processors/video_processor.py:29-34 | after loading, the model field holds the network built from the weights at the given path |
| `VideoProcessing.VideoProcessor.PredictVideo` | backend/processors/video_processor.py:99-124 | the network is loaded from the fixed path only if none was loaded, so the model field is set after every call; the result is that of the pipeline `Run` with stride 30 and the loaded network |
| `VideoProcessing.VideoProcessor.ProcessVideo` | backend/processors/video_processor.py:129-130 | returns exactly what PredictVideo returns, with the same effect on the model field |
| `VideoProcessing.NoFramesIgnoresClassifier` | backend/processors/video_processor.py:104-109 | with a positive stride, the "no frames" error happens iff the video opens but decodes to no frame; the outcome is then the same for every classifier, so no frame is scored |
| `VideoProcessing.NotOpenedFails` | backend/processors/video_processor.py:51-54 | a video that cannot be opened fails with the capture error, whatever the classifier |
| `VideoProcessing.SuccessfulRun` | backend/processors/video_processor.py:99-124 | for a non-empty video and a positive stride the prediction succeeds; it carries ceil(N/S) scores, the k-th for the frame at index k*S; its label, `is_fake` and confidence follow the threshold rule; the confidence lies in [0.5, 1] |
| `VideoProcessing.NinetyFramesExample` | backend/processors/video_processor.py:99-124 | 90 frames with stride 30 whose sampled frames score 0.9, 0.2 and 0.8 give "real", confidence 1.9/3, `is_fake` false, scores [0.9, 0.2, 0.8] |

Two calls on the same bytes give the same result because `Run` is a
function of the bytes, the stride, the foreign calls and the loaded network.

## Left out

- Video decoding, the temporary file write and `capture.release()`: these
  are I/O through a foreign library. They are the `decode` function value,
  and its result is either "not opened" or a finite list of frames. A failure
  while reading frames mid-stream is not modelled; it ends the stream as
  "no more frames" does.
- Temporary file cleanup: the source never deletes the file, so no cleanup
  property is stated.
- `cv2.resize`/`cvtColor`, the PIL conversion and the torchvision transform:
  these are pixel operations in foreign libraries. They are the opaque
  `prepare` and `transform` function values.
- The network internals, `torch.sigmoid`, device selection and `torch.load`:
  these are foreign calls. The classifier is an arbitrary function into
  [0,1], and `loadWeights` is an arbitrary function from paths to
  classifiers. A load that fails (missing file) is not modelled. In the
  source, `self.model = SimpleCNN()` (line 31) is assigned before `torch.load`
  (line 32) can raise. A failed load therefore leaves an untrained network in
  `self.model`, and the next `predict_video` skips loading (line 101) and
  scores with that network. The hard-coded `D:/` path (line 102) makes this
  the likely case on any machine other than the authors'.
- `VideoProcessing.VideoProcessor.LoadModel`: does not model the log line it
  prints.
- Floating-point rounding in `numpy.mean` and in the confidence: scores and
  the mean are exact reals.
- `predict_frames` on a processor with no network fails in the source on the
  first frame; with no frames its loop never runs and it returns an empty
  array. `PredictFrames` requires a loaded network instead, because its only
  caller loads one first.
- Negative strides: the model keeps the source's divisibility test, so it
  keeps the same frames as the source does. The count and index lemmas are
  stated for positive strides only.
- The module-level instance `video_processor` and the web layer
  (`backend/main.py`, `api.js`, `script.js`): these are not part of this
  model.
