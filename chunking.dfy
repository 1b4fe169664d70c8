/** The chunk schedule of `transcribe_audio`: the chunk length in samples, the offsets that
    `range(0, len(audio_data), chunk_size_samples)` visits, and the slice taken at each offset. */
module Chunking {
  import Numbers
  import opened Seqs

  /** One audio sample; what a sample holds does not matter to the schedule. */
  type Sample = real

  /** `int(chunk_size_seconds * target_sr)`: truncated toward zero, and 0 whenever the rate is 0. */
  function ChunkSizeSamples(chunkSeconds: real, targetSr: int): (size: int)
    ensures targetSr == 0 ==> size == 0
    ensures chunkSeconds > 0.0 && targetSr > 0 ==>
      size >= 0 && size as real <= chunkSeconds * targetSr as real < size as real + 1.0
  {
    Numbers.Trunc(chunkSeconds * targetSr as real)
  }

  /** Python's `seq[lo:hi]` for 0 <= lo and 0 <= hi: both ends clipped to the length, empty when
      hi <= lo. A negative hi, which Python counts from the end, never occurs here: the loop only
      slices up to `i + chunk_size_samples` with a positive chunk size. */
  function Slice(s: seq<Sample>, lo: nat, hi: int): (r: seq<Sample>)
    ensures lo <= hi <= |s| ==> r == s[lo..hi]
    ensures |s| <= hi && lo <= |s| ==> r == s[lo..]
    ensures hi <= lo || |s| <= lo ==> r == []
  {
    var l := if lo <= |s| then lo else |s|;
    var h := if hi <= l then l else if hi <= |s| then hi else |s|;
    s[l..h]
  }

  /** The offsets `lo, lo + size, lo + 2 * size, ...` strictly below `stop`. */
  function OffsetsFrom(lo: nat, stop: nat, size: nat): (offs: seq<nat>)
    requires size > 0
    ensures forall k :: 0 <= k < |offs| ==> lo <= offs[k] < stop
    decreases stop - lo
  {
    if lo >= stop then [] else [lo] + OffsetsFrom(lo + size, stop, size)
  }

  /** `range(0, length, size)`; `size` must not be 0 (Python raises), a negative size gives nothing. */
  function ChunkOffsets(length: nat, size: int): (offs: seq<nat>)
    requires size != 0
    ensures forall k :: 0 <= k < |offs| ==> offs[k] < length
  {
    if size < 0 then [] else OffsetsFrom(0, length, size)
  }

  /** `audio_data[i:i + chunk_size_samples]`. */
  function ChunkAt(audio: seq<Sample>, i: nat, size: int): (c: seq<Sample>)
    ensures size > 0 && i <= |audio| ==> c == audio[i..if i + size <= |audio| then i + size else |audio|]
    ensures |c| <= if size > 0 then size else 0
  {
    Slice(audio, i, i + size)
  }

  /** The chunks handed to the engine, in the order the loop visits them. */
  function Chunks(audio: seq<Sample>, size: int): (cs: seq<seq<Sample>>)
    requires size != 0
    ensures |cs| == |ChunkOffsets(|audio|, size)|
  {
    ChunksAt(audio, ChunkOffsets(|audio|, size), size)
  }

  /** The chunks taken at the offsets `offs`, one per offset. */
  function ChunksAt(audio: seq<Sample>, offs: seq<nat>, size: int): (cs: seq<seq<Sample>>)
    ensures |cs| == |offs|
    ensures forall k :: 0 <= k < |offs| ==> cs[k] == ChunkAt(audio, offs[k], size)
  {
    if offs == [] then [] else [ChunkAt(audio, offs[0], size)] + ChunksAt(audio, offs[1..], size)
  }

  function Flatten(cs: seq<seq<Sample>>): seq<Sample> {
    if cs == [] then [] else cs[0] + Flatten(cs[1..])
  }

  /** The offsets from `lo` are an arithmetic progression with step `size`, exactly as many as fit
      below `stop`. */
  lemma {:induction false} OffsetsFromExact(lo: nat, stop: nat, size: nat)
    requires size > 0
    ensures var offs := OffsetsFrom(lo, stop, size);
      (forall k :: 0 <= k < |offs| ==> offs[k] == lo + k * size) &&
      lo + |offs| * size >= stop &&
      (|offs| > 0 ==> lo + (|offs| - 1) * size < stop)
    decreases stop - lo
  {
    var offs := OffsetsFrom(lo, stop, size);
    if lo < stop {
      var rest := OffsetsFrom(lo + size, stop, size);
      assert offs == [lo] + rest;
      assert (forall k :: 0 <= k < |rest| ==> rest[k] == lo + size + k * size) &&
        lo + size + |rest| * size >= stop &&
        (|rest| > 0 ==> lo + size + (|rest| - 1) * size < stop) by {
        OffsetsFromExact(lo + size, stop, size);
      }
      forall k | 0 < k < |offs|
        ensures offs[k] == lo + k * size
      {
        assert offs[k] == rest[k - 1];
        MulStep(k - 1, size);
      }
      MulStep(|rest|, size);
      if |rest| > 0 {
        MulStep(|rest| - 1, size);
      }
    }
  }

  lemma MulStep(k: nat, size: nat)
    ensures (k + 1) * size == k * size + size
  {
  }

  /** Chunk coverage: with a positive size the loop visits exactly the offsets `k * size` below the
      buffer length, and chunk k is the slice from `k * size` to `(k + 1) * size` clipped at the end. */
  lemma ChunkOffsetsExact(audio: seq<Sample>, size: int)
    requires size > 0
    ensures var offs := ChunkOffsets(|audio|, size);
      (forall k :: 0 <= k < |offs| ==> offs[k] == k * size) &&
      (forall k: nat :: k < |offs| <==> k * size < |audio|) &&
      (forall k :: 0 <= k < |offs| ==>
        Chunks(audio, size)[k] == audio[k * size..if (k + 1) * size <= |audio| then (k + 1) * size else |audio|])
  {
    var offs := ChunkOffsets(|audio|, size);
    OffsetsFromExact(0, |audio|, size);
    forall k: nat
      ensures k < |offs| <==> k * size < |audio|
    {
      if k >= |offs| {
        MulMonotone(|offs|, k, size);
      } else if |offs| > 0 {
        MulMonotone(k, |offs| - 1, size);
      }
    }
  }

  /** Consecutive chunks start exactly one chunk length apart. */
  lemma OffsetsConsecutive(length: nat, size: int, k: nat)
    requires size > 0 && k + 1 < |ChunkOffsets(length, size)|
    ensures ChunkOffsets(length, size)[k + 1] == ChunkOffsets(length, size)[k] + size
  {
    OffsetsFromExact(0, length, size);
  }

  lemma MulMonotone(a: nat, b: nat, c: nat)
    requires a <= b
    ensures a * c <= b * c
  {
  }

  /** The chunks concatenate back to the buffer from `lo` on: no gap, no overlap, nothing dropped. */
  lemma {:induction false} FlattenFrom(audio: seq<Sample>, lo: nat, size: nat)
    requires size > 0 && lo <= |audio|
    ensures Flatten(ChunksAt(audio, OffsetsFrom(lo, |audio|, size), size)) == audio[lo..]
    decreases |audio| - lo
  {
    if lo < |audio| {
      var next := if lo + size <= |audio| then lo + size else |audio|;
      var rest := OffsetsFrom(next, |audio|, size);
      assert OffsetsFrom(lo, |audio|, size) == [lo] + rest by {
        assert OffsetsFrom(lo + size, |audio|, size) == rest;
      }
      var first := ChunkAt(audio, lo, size);
      DropFirst(lo, rest);
      DropFirst(first, ChunksAt(audio, rest, size));
      FlattenFrom(audio, next, size);
      SplitSuffix(audio, lo, next);
    }
  }

  /** Concatenating the chunks in order gives back the whole buffer. */
  lemma ChunksCover(audio: seq<Sample>, size: int)
    requires size > 0
    ensures Flatten(Chunks(audio, size)) == audio
  {
    FlattenFrom(audio, 0, size);
    assert audio[0..] == audio;
  }

  /** An empty buffer is never cut: the engine is not called at all. */
  lemma EmptyBufferNoChunks(audio: seq<Sample>, size: int)
    requires size != 0 && audio == []
    ensures ChunkOffsets(|audio|, size) == [] && Chunks(audio, size) == []
  {
  }
}
