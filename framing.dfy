/** The two ways the benchmark applies a compressor to a buffer: streaming
    (one call over the whole buffer) and per-frame (independent calls over
    fixed-size slices, each counted with a 4-byte length prefix). A
    compressor is an arbitrary function from bytes to bytes; what it does
    inside is not part of this model. */
module Framing {
  import opened Text

  type Compressor = seq<byte> -> seq<byte>

  /** Width of the length prefix counted per frame. */
  const HeaderBytes: nat := 4

  /** What a compression wrapper returns: the compressed size and the time
      measured around the compressor call, both in the source's units. */
  datatype Measurement = Measurement(size: nat, elapsedNs: nat)

  function Min(a: int, b: int): int { if a <= b then a else b }

  /** The slices a per-frame pass compresses: `data[offset:offset + frameSize]`
      for `offset` = 0, frameSize, 2 * frameSize, ... while `offset < len(data)`. */
  function Frames(data: seq<byte>, frameSize: nat): seq<seq<byte>>
    requires frameSize > 0
    decreases |data|
  {
    if data == [] then []
    else
      var n := Min(frameSize, |data|);
      [data[..n]] + Frames(data[n..], frameSize)
  }

  /** The on-wire size of a sequence of frames: each frame costs its header
      plus its compressed payload. */
  function WireSize(c: Compressor, frames: seq<seq<byte>>): nat
  {
    if frames == [] then 0 else HeaderBytes + |c(frames[0])| + WireSize(c, frames[1..])
  }

  function Flatten(frames: seq<seq<byte>>): seq<byte>
  {
    if frames == [] then [] else frames[0] + Flatten(frames[1..])
  }

  /** The loop of `compress_per_frame_zlib` and `compress_per_frame_zstd`:
      `offset` steps by `frameSize` and `total` collects header plus payload
      of each slice. A non-positive frame size would never advance `offset`. */
  method PerFrameTotal(c: Compressor, data: seq<byte>, frameSize: nat) returns (total: nat)
    requires frameSize > 0
    ensures total == WireSize(c, Frames(data, frameSize))
  {
    total := 0;
    var offset := 0;
    while offset < |data|
      invariant 0 <= offset
      invariant total + WireSize(c, Frames(data[Min(offset, |data|)..], frameSize))
             == WireSize(c, Frames(data, frameSize))
      decreases |data| - offset
    {
      var chunk := data[offset..Min(offset + frameSize, |data|)];
      ghost var rest := data[offset..];
      assert rest[..Min(frameSize, |rest|)] == chunk;
      assert rest[Min(frameSize, |rest|)..] == data[Min(offset + frameSize, |data|)..];
      total := total + HeaderBytes + |c(chunk)|;
      offset := offset + frameSize;
    }
    assert data[Min(offset, |data|)..] == [];
  }

  /** `compress_streaming_zlib` and `compress_streaming_lzma`. */
  function CompressStreaming(c: Compressor, data: seq<byte>, elapsedNs: nat): (m: Measurement)
    ensures m.size == |c(data)| && m.elapsedNs == elapsedNs
  {
    Measurement(|c(data)|, elapsedNs)
  }

  /** `compress_streaming_zstd`: without the optional backend it reports a
      zero size and zero time instead of failing. */
  function CompressStreamingZstd(hasZstd: bool, c: Compressor, data: seq<byte>, elapsedNs: nat): (m: Measurement)
    ensures !hasZstd ==> m == Measurement(0, 0)
    ensures hasZstd ==> m == CompressStreaming(c, data, elapsedNs)
  {
    if !hasZstd then Measurement(0, 0) else CompressStreaming(c, data, elapsedNs)
  }

  /** `compress_per_frame_zlib`. */
  method CompressPerFrame(c: Compressor, data: seq<byte>, frameSize: nat, elapsedNs: nat)
    returns (m: Measurement)
    requires frameSize > 0
    ensures m == Measurement(WireSize(c, Frames(data, frameSize)), elapsedNs)
  {
    var total := PerFrameTotal(c, data, frameSize);
    m := Measurement(total, elapsedNs);
  }

  /** `compress_per_frame_zstd`: the same pass, or zero size and zero time
      without the optional backend. */
  method CompressPerFrameZstd(hasZstd: bool, c: Compressor, data: seq<byte>, frameSize: nat, elapsedNs: nat)
    returns (m: Measurement)
    requires frameSize > 0
    ensures !hasZstd ==> m == Measurement(0, 0)
    ensures hasZstd ==> m == Measurement(WireSize(c, Frames(data, frameSize)), elapsedNs)
  {
    if !hasZstd {
      return Measurement(0, 0);
    }
    var total := PerFrameTotal(c, data, frameSize);
    m := Measurement(total, elapsedNs);
  }

  // ---------------------------------------------------------------------------
  // Properties of the per-frame partition
  // ---------------------------------------------------------------------------

  /** The frames put back together are the input: nothing is lost, repeated
      or reordered. */
  lemma {:induction false} FramesFlatten(data: seq<byte>, frameSize: nat)
    requires frameSize > 0
    ensures Flatten(Frames(data, frameSize)) == data
    decreases |data|
  {
    if data != [] {
      var n := Min(frameSize, |data|);
      FramesFlatten(data[n..], frameSize);
      assert Frames(data, frameSize)[1..] == Frames(data[n..], frameSize);
      assert data[..n] + data[n..] == data;
    }
  }

  /** Every frame is non-empty and at most `frameSize` long, and every frame
      but the last is exactly `frameSize` long. */
  lemma {:induction false} FramesShape(data: seq<byte>, frameSize: nat)
    requires frameSize > 0
    ensures var fs := Frames(data, frameSize);
            forall i :: 0 <= i < |fs| ==>
              && 0 < |fs[i]| <= frameSize
              && (i < |fs| - 1 ==> |fs[i]| == frameSize)
    decreases |data|
  {
    if data != [] {
      var n := Min(frameSize, |data|);
      FramesShape(data[n..], frameSize);
      var fs := Frames(data, frameSize);
      assert fs[1..] == Frames(data[n..], frameSize);
      assert forall i :: 1 <= i < |fs| ==> fs[i] == fs[1..][i - 1];
    }
  }

  /** There are ceil(len(data) / frameSize) frames: the least count whose
      frames cover the data. */
  lemma {:induction false} FramesCount(data: seq<byte>, frameSize: nat)
    requires frameSize > 0
    ensures var k := |Frames(data, frameSize)|;
            && (data == [] ==> k == 0)
            && (data != [] ==> (k - 1) * frameSize < |data| <= k * frameSize)
    decreases |data|
  {
    var k := |Frames(data, frameSize)|;
    if data != [] {
      var n := Min(frameSize, |data|);
      var rest := data[n..];
      FramesCount(rest, frameSize);
      assert k == |Frames(rest, frameSize)| + 1;
      if rest != [] {
        MulStep(k - 1, frameSize);
        MulStep(k - 2, frameSize);
      }
    }
  }

  lemma MulStep(k: nat, d: nat)
    ensures (k + 1) * d == k * d + d
  {
  }

  /** Frame `k` is exactly the slice `data[k*f : min((k+1)*f, len(data))]`. */
  lemma {:induction false} FrameAt(data: seq<byte>, frameSize: nat, k: nat)
    requires frameSize > 0
    requires k < |Frames(data, frameSize)|
    ensures k * frameSize < |data|
    ensures Frames(data, frameSize)[k] == data[k * frameSize .. Min((k + 1) * frameSize, |data|)]
    decreases |data|
  {
    var n := Min(frameSize, |data|);
    var rest := data[n..];
    if k > 0 {
      assert Frames(data, frameSize)[k] == Frames(rest, frameSize)[k - 1];
      FrameAt(rest, frameSize, k - 1);
      assert n == frameSize;
      MulStep(k - 1, frameSize);
      MulStep(k, frameSize);
      assert rest[(k - 1) * frameSize .. Min(k * frameSize, |rest|)]
          == data[k * frameSize .. Min((k + 1) * frameSize, |data|)];
    }
  }

  /** The per-frame total is the header count plus the sum of the payloads,
      so it exceeds the payload sum by exactly 4 bytes per frame. */
  function PayloadSize(c: Compressor, frames: seq<seq<byte>>): nat
  {
    if frames == [] then 0 else |c(frames[0])| + PayloadSize(c, frames[1..])
  }

  lemma {:induction false} WireSizeSplit(c: Compressor, frames: seq<seq<byte>>)
    ensures WireSize(c, frames) == HeaderBytes * |frames| + PayloadSize(c, frames)
    decreases |frames|
  {
    if frames != [] {
      WireSizeSplit(c, frames[1..]);
    }
  }

  /** Boundary cases of the per-frame pass: empty data costs nothing, and a
      buffer that fits in one frame (in particular `frameSize == len(data)`)
      costs the streaming size plus exactly one header. */
  lemma PerFrameBoundaries(c: Compressor, data: seq<byte>, frameSize: nat)
    requires frameSize > 0
    ensures data == [] ==> WireSize(c, Frames(data, frameSize)) == 0
    ensures 0 < |data| <= frameSize ==>
              WireSize(c, Frames(data, frameSize)) == HeaderBytes + CompressStreaming(c, data, 0).size
  {
    if 0 < |data| <= frameSize {
      assert data[..|data|] == data && data[|data|..] == [];
      assert Frames(data, frameSize) == [data];
    }
  }
}
