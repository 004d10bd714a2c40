/** Values that flow through the video verdict pipeline: the uploaded bytes,
    what the video decoder makes of them, the frames and tensors derived from
    the decoded frames, the classifier that scores one frame, and the outcome
    of a pipeline call. */
module Media {

  /** The uploaded video file, as raw bytes. */
  type Bytes = seq<bv8>

  /** One frame as the decoder returns it (8-bit BGR pixels, native size). */
  type RawFrame = seq<bv8>

  /** One sampled frame after it was resized to 224x224 and turned into RGB. */
  type Frame = seq<bv8>

  /** The network input built from one frame (resized and scaled to [0,1]). */
  type Tensor = seq<real>

  /** A probability that a frame is authentic. */
  type Probability = r: real | 0.0 <= r <= 1.0

  /** The loaded network followed by the sigmoid: it maps the tensor of one
      frame to the probability that the frame is real. */
  type Classifier = Tensor -> Probability

  /** What the decoder makes of the uploaded bytes: either it cannot open
      them at all, or it yields a finite stream of frames in decode order. */
  datatype Capture = NotOpened | Opened(frames: seq<RawFrame>)

  /** The ways a video prediction fails. */
  datatype Error =
    | CaptureNotOpened  // the decoder could not open the video
    | ZeroStride        // a stride of 0 makes `frame_index % skip_frames` divide by zero
    | NoFrames          // sampling kept no frame at all

  datatype Result<+T> = Ok(value: T) | Err(error: Error)

  datatype Option<+T> = None | Some(value: T)
}
