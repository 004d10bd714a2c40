/** Stride sampling of decoded frames: a frame is kept exactly when its
    0-based decode index is divisible by the stride. */
module FrameSampling {
  import opened Media

  /** Whether the frame at decode position `index` is kept for stride `skip`.
      A stride of 0 keeps nothing; the extraction reports it as an error
      before this is ever consulted on a decoded frame. */
  predicate Kept(index: nat, skip: int) {
    skip != 0 && index % skip == 0
  }

  /** The prepared frames kept from the decoded stream `decoded`, in decode
      order. Defined on the last frame so that it follows the extraction loop. */
  function SampledFrames(decoded: seq<RawFrame>, skip: int, prepare: RawFrame -> Frame): (frames: seq<Frame>)
    ensures |frames| <= |decoded|
  {
    if decoded == [] then []
    else
      var last := |decoded| - 1;
      SampledFrames(decoded[..last], skip, prepare)
        + (if Kept(last, skip) then [prepare(decoded[last])] else [])
  }

  /** What extracting frames with stride `skip` yields from a capture: an
      error if the capture did not open, an error for stride 0 as soon as one
      frame is decoded, and the sampled frames otherwise. */
  function Extract(capture: Capture, skip: int, prepare: RawFrame -> Frame): Result<seq<Frame>>
  {
    match capture
    case NotOpened => Err(CaptureNotOpened)
    case Opened(decoded) =>
      if skip == 0 && decoded != [] then Err(ZeroStride)
      else Ok(SampledFrames(decoded, skip, prepare))
  }

  /** ceil(n / s) for a positive s. */
  function CeilDiv(n: nat, s: nat): nat
    requires s > 0
  {
    (n + s - 1) / s
  }

  /** Integer division by a positive divisor is determined by the bracket
      `q * s <= a < (q + 1) * s`. */
  lemma DivIsBracket(a: nat, s: nat, q: nat)
    requires s > 0
    requires q * s <= a < q * s + s
    ensures a / s == q
  {
    var d, r := a / s, a % s;
    assert a == d * s + r && 0 <= r < s;
    if d < q {
      MulStep(d, q, s);
      assert false;
    } else if q < d {
      MulStep(q, d, s);
      assert false;
    }
  }

  /** Multiplying by a natural number keeps a strict gap of at least that
      number between distinct integers. */
  lemma {:induction false} MulStep(x: int, y: int, s: nat)
    requires x < y
    ensures x * s + s <= y * s
    decreases s
  {
    if s > 0 {
      MulStep(x, y, s - 1);
      assert x * s == x * (s - 1) + x;
      assert y * s == y * (s - 1) + y;
    }
  }

  /** How the number of kept frames grows when one more frame is decoded:
      by one exactly when the new frame's index is a multiple of the stride,
      and in that case the new frame is the `CeilDiv(n, s)`-th kept one. */
  lemma CeilDivStep(n: nat, s: nat)
    requires s > 0
    ensures n % s == 0 ==> CeilDiv(n + 1, s) == CeilDiv(n, s) + 1 && CeilDiv(n, s) * s == n
    ensures n % s != 0 ==> CeilDiv(n + 1, s) == CeilDiv(n, s)
  {
    var q, r := n / s, n % s;
    assert n == q * s + r && 0 <= r < s;
    assert (q + 1) * s == q * s + s;
    if r == 0 {
      DivIsBracket(n + s - 1, s, q);
      DivIsBracket(n + s, s, q + 1);
    } else {
      DivIsBracket(n + s - 1, s, q + 1);
      DivIsBracket(n + s, s, q + 1);
    }
  }

  /** Stride sampling keeps ceil(N / S) frames out of N decoded ones, and the
      k-th kept frame is the prepared frame decoded at index k * S. */
  lemma {:induction false} SampledFramesStride(decoded: seq<RawFrame>, skip: int, prepare: RawFrame -> Frame)
    requires skip > 0
    ensures |SampledFrames(decoded, skip, prepare)| == CeilDiv(|decoded|, skip)
    ensures forall k :: 0 <= k < |SampledFrames(decoded, skip, prepare)| ==>
              k * skip < |decoded| && SampledFrames(decoded, skip, prepare)[k] == prepare(decoded[k * skip])
  {
    if decoded == [] {
      assert CeilDiv(0, skip) == 0 by { DivIsBracket(skip - 1, skip, 0); }
    } else {
      var last := |decoded| - 1;
      var prefix := decoded[..last];
      SampledFramesStride(prefix, skip, prepare);
      CeilDivStep(last, skip);
      var before := SampledFrames(prefix, skip, prepare);
      var after := SampledFrames(decoded, skip, prepare);
      assert Kept(last, skip) <==> last % skip == 0;
      forall k | 0 <= k < |after|
        ensures k * skip < |decoded| && after[k] == prepare(decoded[k * skip])
      {
        if k < |before| {
          assert after[k] == before[k];
          assert prefix[k * skip] == decoded[k * skip];
        } else {
          assert k == CeilDiv(last, skip);
        }
      }
    }
  }

  /** Sampling with a positive stride keeps at least one frame exactly when
      the decoder yields at least one frame (the first frame always passes). */
  lemma {:induction false} SampledFramesEmptyIff(decoded: seq<RawFrame>, skip: int, prepare: RawFrame -> Frame)
    requires skip > 0
    ensures SampledFrames(decoded, skip, prepare) == [] <==> decoded == []
  {
    SampledFramesStride(decoded, skip, prepare);
    if decoded != [] {
      assert CeilDiv(|decoded|, skip) >= 1 by {
        DivIsBracket(|decoded| + skip - 1, skip, (|decoded| + skip - 1) / skip);
      }
    }
  }
}
