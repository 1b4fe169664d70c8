/** The chunk loop of `transcribe_audio`: each chunk goes to the speech recogniser, every stamp it
    returns is moved onto the recording's time line by the chunk's start time, and the stamps are
    appended to one of three streams (word, segment, char). */
module Timeline {
  import opened Chunking
  import opened Seqs

  /** One time stamp of the recogniser: its text (the `word`, `segment` or `char` key) and its
      start and end in seconds. */
  datatype Stamp = Stamp(text: string, start: real, end: real)

  /** The recogniser's result for one chunk: `output[0].timestamp`, one sequence per granularity,
      with times relative to the start of the chunk. */
  datatype AsrOutput = AsrOutput(words: seq<Stamp>, segments: seq<Stamp>, chars: seq<Stamp>)

  datatype Granularity = Word | Segment | Char

  /** The three accumulated streams, `word_timestamps`, `segment_timestamps`, `char_timestamps`. */
  datatype Streams = Streams(words: seq<Stamp>, segments: seq<Stamp>, chars: seq<Stamp>)

  /** The speech recogniser, opaque: a chunk of samples to its three stamp sequences. */
  type Engine = seq<Sample> -> AsrOutput

  function Select(out: AsrOutput, g: Granularity): seq<Stamp> {
    match g
    case Word => out.words
    case Segment => out.segments
    case Char => out.chars
  }

  function SelectStream(t: Streams, g: Granularity): seq<Stamp> {
    match g
    case Word => t.words
    case Segment => t.segments
    case Char => t.chars
  }

  /** `stamp['start'] += chunk_start_time; stamp['end'] += chunk_start_time`. */
  function RebaseStamp(st: Stamp, delta: real): (r: Stamp)
    ensures r.text == st.text
    ensures r.end - r.start == st.end - st.start
  {
    st.(start := st.start + delta, end := st.end + delta)
  }

  /** Every stamp of `stamps` rebased, in the order given. */
  function Rebase(stamps: seq<Stamp>, delta: real): (r: seq<Stamp>)
    ensures |r| == |stamps|
  {
    seq(|stamps|, k requires 0 <= k < |stamps| => RebaseStamp(stamps[k], delta))
  }

  /** Stamp k of a rebased sequence is stamp k of the original, with the same text and `delta`
      added to its start and its end. */
  lemma RebaseShift(stamps: seq<Stamp>, delta: real)
    ensures forall k :: 0 <= k < |stamps| ==>
      Rebase(stamps, delta)[k].text == stamps[k].text &&
      Rebase(stamps, delta)[k].start == stamps[k].start + delta &&
      Rebase(stamps, delta)[k].end == stamps[k].end + delta
  {
  }

  /** `i / target_sr`, the start time in seconds of the chunk at sample offset i. */
  function ChunkStartTime(i: nat, targetSr: int): (t: real)
    requires targetSr != 0
    ensures t * targetSr as real == i as real
    ensures targetSr > 0 ==> t >= 0.0
  {
    i as real / targetSr as real
  }

  /** What the chunk at offset i contributes to stream g: the engine's stamps for that chunk,
      rebased by the chunk's start time. */
  function Contribution(audio: seq<Sample>, size: int, targetSr: int, asr: Engine, i: nat, g: Granularity): seq<Stamp>
    requires targetSr != 0
  {
    Rebase(Select(asr(ChunkAt(audio, i, size)), g), ChunkStartTime(i, targetSr))
  }

  /** Stream g after the chunks at the offsets `offs` have been processed in order. It holds
      exactly as many stamps as the engine returned for g over those chunks. */
  function Gather(audio: seq<Sample>, size: int, targetSr: int, asr: Engine, offs: seq<nat>, g: Granularity): (s: seq<Stamp>)
    requires targetSr != 0
    ensures |s| == StampCount(audio, size, asr, offs, g)
  {
    if offs == [] then
      []
    else
      Gather(audio, size, targetSr, asr, offs[..|offs| - 1], g)
      + Contribution(audio, size, targetSr, asr, offs[|offs| - 1], g)
  }

  /** The three streams of a whole recording (a non-zero chunk size implies a non-zero rate). */
  function Transcript(audio: seq<Sample>, chunkSeconds: real, targetSr: int, asr: Engine): (t: Streams)
    requires ChunkSizeSamples(chunkSeconds, targetSr) != 0
    ensures var size := ChunkSizeSamples(chunkSeconds, targetSr);
      var offs := ChunkOffsets(|audio|, size);
      |t.words| == StampCount(audio, size, asr, offs, Word) &&
      |t.segments| == StampCount(audio, size, asr, offs, Segment) &&
      |t.chars| == StampCount(audio, size, asr, offs, Char)
  {
    var size := ChunkSizeSamples(chunkSeconds, targetSr);
    var offs := ChunkOffsets(|audio|, size);
    Streams(Gather(audio, size, targetSr, asr, offs, Word),
            Gather(audio, size, targetSr, asr, offs, Segment),
            Gather(audio, size, targetSr, asr, offs, Char))
  }

  /** One of the three inner loops: rebase each stamp of one chunk and append it to the stream. */
  method AppendRebased(acc: seq<Stamp>, stamps: seq<Stamp>, chunkStartTime: real) returns (r: seq<Stamp>)
    ensures r == acc + Rebase(stamps, chunkStartTime)
  {
    r := acc;
    for j := 0 to |stamps|
      invariant |r| == |acc| + j
      invariant r[..|acc|] == acc
      invariant forall k :: 0 <= k < j ==> r[|acc| + k] == RebaseStamp(stamps[k], chunkStartTime)
    {
      var stamp := RebaseStamp(stamps[j], chunkStartTime);
      r := r + [stamp];
    }
    assert r == acc + Rebase(stamps, chunkStartTime);
  }

  /** Lines 37-65 of `transcribe_audio`: the schedule and the three accumulation loops. */
  method ProcessChunks(audio: seq<Sample>, chunkSeconds: real, targetSr: int, asr: Engine) returns (t: Streams)
    requires ChunkSizeSamples(chunkSeconds, targetSr) != 0
    ensures t == Transcript(audio, chunkSeconds, targetSr, asr)
  {
    var size := ChunkSizeSamples(chunkSeconds, targetSr);
    var offsets := ChunkOffsets(|audio|, size);
    var words, segments, chars := [], [], [];
    for n := 0 to |offsets|
      invariant words == Gather(audio, size, targetSr, asr, offsets[..n], Word)
      invariant segments == Gather(audio, size, targetSr, asr, offsets[..n], Segment)
      invariant chars == Gather(audio, size, targetSr, asr, offsets[..n], Char)
    {
      var i := offsets[n];
      var chunk := ChunkAt(audio, i, size);
      var output := asr(chunk);
      var chunkStartTime := ChunkStartTime(i, targetSr);
      words := AppendRebased(words, output.words, chunkStartTime);
      segments := AppendRebased(segments, output.segments, chunkStartTime);
      chars := AppendRebased(chars, output.chars, chunkStartTime);
      TakeNext(offsets, n);
      GatherSnoc(audio, size, targetSr, asr, offsets[..n], i, Word);
      GatherSnoc(audio, size, targetSr, asr, offsets[..n], i, Segment);
      GatherSnoc(audio, size, targetSr, asr, offsets[..n], i, Char);
    }
    assert offsets[..|offsets|] == offsets;
    t := Streams(words, segments, chars);
  }

  /** One more chunk appends its contribution to the stream. */
  lemma GatherSnoc(audio: seq<Sample>, size: int, targetSr: int, asr: Engine,
                   offs: seq<nat>, last: nat, g: Granularity)
    requires targetSr != 0
    ensures Gather(audio, size, targetSr, asr, offs + [last], g)
         == Gather(audio, size, targetSr, asr, offs, g) + Contribution(audio, size, targetSr, asr, last, g)
  {
    var o := offs + [last];
    assert o[..|o| - 1] == offs && o[|o| - 1] == last;
  }

  /** Processing two runs of chunks one after the other gives the two streams one after the other:
      the streams only grow, at their end. */
  lemma {:induction false} GatherAppend(audio: seq<Sample>, size: int, targetSr: int, asr: Engine,
                                         a: seq<nat>, b: seq<nat>, g: Granularity)
    requires targetSr != 0
    ensures Gather(audio, size, targetSr, asr, a + b, g)
         == Gather(audio, size, targetSr, asr, a, g) + Gather(audio, size, targetSr, asr, b, g)
  {
    if b == [] {
      assert a + b == a;
    } else {
      var b', last := b[..|b| - 1], b[|b| - 1];
      var c := Contribution(audio, size, targetSr, asr, last, g);
      var ga, gb' := Gather(audio, size, targetSr, asr, a, g), Gather(audio, size, targetSr, asr, b', g);
      SplitLast(b);
      AppendAssoc(a, b', [last]);
      GatherSnoc(audio, size, targetSr, asr, a + b', last, g);
      GatherSnoc(audio, size, targetSr, asr, b', last, g);
      GatherAppend(audio, size, targetSr, asr, a, b', g);
      AppendAssoc(ga, gb', c);
    }
  }

  /** The number of stamps the engine returns in stream g, summed over the chunks at `offs`. */
  function StampCount(audio: seq<Sample>, size: int, asr: Engine, offs: seq<nat>, g: Granularity): nat {
    if offs == [] then 0
    else StampCount(audio, size, asr, offs[..|offs| - 1], g) + |Select(asr(ChunkAt(audio, offs[|offs| - 1], size)), g)|
  }

  /** Rebasing and order: the j-th stamp the engine returned for the k-th chunk sits, in stream g,
      right after everything from the chunks before it; it keeps its text and has the chunk's start
      time `i / target_sr` added to its start and its end. */
  lemma GatherPosition(audio: seq<Sample>, size: int, targetSr: int, asr: Engine,
                       offs: seq<nat>, g: Granularity, k: nat, j: nat)
    requires targetSr != 0
    requires k < |offs| && j < |Select(asr(ChunkAt(audio, offs[k], size)), g)|
    ensures var local := Select(asr(ChunkAt(audio, offs[k], size)), g)[j];
      var p := |Gather(audio, size, targetSr, asr, offs[..k], g)| + j;
      var s := Gather(audio, size, targetSr, asr, offs, g);
      p < |s| && s[p].text == local.text &&
      s[p].start == local.start + offs[k] as real / targetSr as real &&
      s[p].end == local.end + offs[k] as real / targetSr as real
  {
    assert offs == offs[..k] + [offs[k]] + offs[k + 1..];
    GatherAppend(audio, size, targetSr, asr, offs[..k] + [offs[k]], offs[k + 1..], g);
    GatherAppend(audio, size, targetSr, asr, offs[..k], [offs[k]], g);
  }

  /** `st` is the j-th stamp the engine returned in granularity g for the chunk at one of the
      offsets `offs`, rebased by that chunk's start time. */
  predicate FromChunks(st: Stamp, audio: seq<Sample>, size: int, targetSr: int, asr: Engine,
                       offs: seq<nat>, g: Granularity)
    requires targetSr != 0
  {
    exists k, j :: 0 <= k < |offs| && 0 <= j < |Select(asr(ChunkAt(audio, offs[k], size)), g)| &&
      st == RebaseStamp(Select(asr(ChunkAt(audio, offs[k], size)), g)[j], ChunkStartTime(offs[k], targetSr))
  }

  /** Every stamp of `s` comes from one of the chunks at `offs`. */
  predicate AllFromChunks(s: seq<Stamp>, audio: seq<Sample>, size: int, targetSr: int, asr: Engine,
                          offs: seq<nat>, g: Granularity)
    requires targetSr != 0
  {
    forall p :: 0 <= p < |s| ==> FromChunks(s[p], audio, size, targetSr, asr, offs, g)
  }

  lemma FromPrefix(st: Stamp, audio: seq<Sample>, size: int, targetSr: int, asr: Engine,
                   offs: seq<nat>, n: nat, g: Granularity)
    requires targetSr != 0 && n <= |offs|
    requires FromChunks(st, audio, size, targetSr, asr, offs[..n], g)
    ensures FromChunks(st, audio, size, targetSr, asr, offs, g)
  {
    var init := offs[..n];
    var k, j :| 0 <= k < |init| && 0 <= j < |Select(asr(ChunkAt(audio, init[k], size)), g)| &&
      st == RebaseStamp(Select(asr(ChunkAt(audio, init[k], size)), g)[j], ChunkStartTime(init[k], targetSr));
    assert init[k] == offs[k];
  }

  lemma FromLast(audio: seq<Sample>, size: int, targetSr: int, asr: Engine, offs: seq<nat>, g: Granularity, j: nat)
    requires targetSr != 0 && offs != []
    requires j < |Contribution(audio, size, targetSr, asr, offs[|offs| - 1], g)|
    ensures FromChunks(Contribution(audio, size, targetSr, asr, offs[|offs| - 1], g)[j], audio, size, targetSr, asr, offs, g)
  {
    var k := |offs| - 1;
    assert Contribution(audio, size, targetSr, asr, offs[k], g)[j]
        == RebaseStamp(Select(asr(ChunkAt(audio, offs[k], size)), g)[j], ChunkStartTime(offs[k], targetSr));
  }

  /** The converse of GatherPosition: every stamp of stream g is a rebased stamp that the engine
      returned in granularity g for one of the chunks. */
  lemma {:induction false} GatherOrigin(audio: seq<Sample>, size: int, targetSr: int, asr: Engine,
                                         offs: seq<nat>, g: Granularity)
    requires targetSr != 0
    ensures AllFromChunks(Gather(audio, size, targetSr, asr, offs, g), audio, size, targetSr, asr, offs, g)
  {
    if offs != [] {
      var n := |offs| - 1;
      var prev := Gather(audio, size, targetSr, asr, offs[..n], g);
      var c := Contribution(audio, size, targetSr, asr, offs[n], g);
      var s := Gather(audio, size, targetSr, asr, offs, g);
      assert s == prev + c;
      GatherOrigin(audio, size, targetSr, asr, offs[..n], g);
      forall p | 0 <= p < |s|
        ensures FromChunks(s[p], audio, size, targetSr, asr, offs, g)
      {
        if p < |prev| {
          assert s[p] == prev[p];
          FromPrefix(s[p], audio, size, targetSr, asr, offs, n, g);
        } else {
          assert s[p] == c[p - |prev|];
          FromLast(audio, size, targetSr, asr, offs, g, p - |prev|);
        }
      }
    }
  }

  /** The three streams of a recording never mix: each holds only rebased stamps that the engine
      returned in its own granularity. */
  lemma TranscriptStreams(audio: seq<Sample>, chunkSeconds: real, targetSr: int, asr: Engine, g: Granularity)
    requires ChunkSizeSamples(chunkSeconds, targetSr) != 0
    ensures targetSr != 0
    ensures var size := ChunkSizeSamples(chunkSeconds, targetSr);
      AllFromChunks(SelectStream(Transcript(audio, chunkSeconds, targetSr, asr), g),
                    audio, size, targetSr, asr, ChunkOffsets(|audio|, size), g)
  {
    var size := ChunkSizeSamples(chunkSeconds, targetSr);
    var offs := ChunkOffsets(|audio|, size);
    assert SelectStream(Transcript(audio, chunkSeconds, targetSr, asr), g) == Gather(audio, size, targetSr, asr, offs, g);
    GatherOrigin(audio, size, targetSr, asr, offs, g);
  }

  /** An empty buffer leaves all three streams empty. */
  lemma EmptyTranscript(audio: seq<Sample>, chunkSeconds: real, targetSr: int, asr: Engine)
    requires ChunkSizeSamples(chunkSeconds, targetSr) != 0 && audio == []
    ensures Transcript(audio, chunkSeconds, targetSr, asr) == Streams([], [], [])
  {
  }

  predicate StartsOrdered(s: seq<Stamp>) {
    forall j, k :: 0 <= j < k < |s| ==> s[j].start <= s[k].start
  }

  /** What the engine is expected to return for a chunk lasting `duration` seconds: stamps in
      order of their start, each starting within the chunk. */
  predicate WellTimed(stamps: seq<Stamp>, duration: real) {
    StartsOrdered(stamps) && forall j :: 0 <= j < |stamps| ==> 0.0 <= stamps[j].start <= duration
  }

  lemma DivAdd(a: real, b: real, c: real)
    requires c > 0.0
    ensures (a + b) / c == a / c + b / c
  {
  }

  lemma DivMonotone(a: real, b: real, c: real)
    requires c > 0.0 && a <= b
    ensures a / c <= b / c
  {
  }

  /** One chunk's rebased stamps are ordered and start within the chunk's window on the time line. */
  lemma ContributionOrdered(audio: seq<Sample>, size: int, targetSr: int, asr: Engine, i: nat, g: Granularity)
    requires size > 0 && targetSr > 0
    requires WellTimed(Select(asr(ChunkAt(audio, i, size)), g), |ChunkAt(audio, i, size)| as real / targetSr as real)
    ensures var c := Contribution(audio, size, targetSr, asr, i, g);
      StartsOrdered(c) &&
      forall q :: 0 <= q < |c| ==>
        i as real / targetSr as real <= c[q].start <= (i + size) as real / targetSr as real
  {
    var sr := targetSr as real;
    var chunk := ChunkAt(audio, i, size);
    var local := Select(asr(chunk), g);
    var c := Contribution(audio, size, targetSr, asr, i, g);
    assert |chunk| <= size;
    DivAdd(i as real, size as real, sr);
    DivMonotone(|chunk| as real, size as real, sr);
    forall q | 0 <= q < |c|
      ensures c[q].start == local[q].start + i as real / sr
    {
    }
  }

  /** Two ordered runs separated by a bound form one ordered run. */
  lemma OrderedConcat(s: seq<Stamp>, t: seq<Stamp>, bound: real)
    requires StartsOrdered(s) && StartsOrdered(t)
    requires forall p :: 0 <= p < |s| ==> s[p].start <= bound
    requires forall q :: 0 <= q < |t| ==> bound <= t[q].start
    ensures StartsOrdered(s + t)
  {
    var u := s + t;
    forall p, q | 0 <= p < q < |u|
      ensures u[p].start <= u[q].start
    {
      if q < |s| {
        assert u[p] == s[p] && u[q] == s[q];
      } else if p >= |s| {
        assert u[p] == t[p - |s|] && u[q] == t[q - |s|];
      } else {
        assert u[p] == s[p] && u[q] == t[q - |s|];
      }
    }
  }

  /** The inductive core of TranscriptOrdered: over any run of offsets one chunk length apart the
      stream is ordered, and no stamp starts after the end of the last chunk's window. */
  lemma {:induction false} GatherOrdered(audio: seq<Sample>, size: int, targetSr: int, asr: Engine,
                                          offs: seq<nat>, g: Granularity)
    requires size > 0 && targetSr > 0
    requires forall k :: 0 <= k < |offs| - 1 ==> offs[k + 1] == offs[k] + size
    requires forall k :: 0 <= k < |offs| ==>
      WellTimed(Select(asr(ChunkAt(audio, offs[k], size)), g), |ChunkAt(audio, offs[k], size)| as real / targetSr as real)
    ensures var s := Gather(audio, size, targetSr, asr, offs, g);
      StartsOrdered(s) &&
      (offs != [] ==> forall p :: 0 <= p < |s| ==> s[p].start <= (offs[|offs| - 1] + size) as real / targetSr as real)
    decreases |offs|, 1
  {
    if offs != [] {
      var sr := targetSr as real;
      var i := offs[|offs| - 1];
      PrefixOrdered(audio, size, targetSr, asr, offs, g);
      ContributionOrdered(audio, size, targetSr, asr, i, g);
      DivMonotone(i as real, (i + size) as real, sr);
      OrderedStep(Gather(audio, size, targetSr, asr, offs[..|offs| - 1], g), Contribution(audio, size, targetSr, asr, i, g),
                  i as real / sr, (i + size) as real / sr);
    }
  }

  /** The stream of all chunks but the last is ordered and starts nothing after the last chunk's
      start time. */
  lemma {:induction false} PrefixOrdered(audio: seq<Sample>, size: int, targetSr: int, asr: Engine,
                                          offs: seq<nat>, g: Granularity)
    requires size > 0 && targetSr > 0 && offs != []
    requires forall k :: 0 <= k < |offs| - 1 ==> offs[k + 1] == offs[k] + size
    requires forall k :: 0 <= k < |offs| ==>
      WellTimed(Select(asr(ChunkAt(audio, offs[k], size)), g), |ChunkAt(audio, offs[k], size)| as real / targetSr as real)
    ensures var prev := Gather(audio, size, targetSr, asr, offs[..|offs| - 1], g);
      StartsOrdered(prev) &&
      forall p :: 0 <= p < |prev| ==> prev[p].start <= offs[|offs| - 1] as real / targetSr as real
    decreases |offs|, 0
  {
    var init := offs[..|offs| - 1];
    forall k | 0 <= k < |init|
      ensures WellTimed(Select(asr(ChunkAt(audio, init[k], size)), g), |ChunkAt(audio, init[k], size)| as real / targetSr as real)
    {
      assert init[k] == offs[k];
    }
    forall k | 0 <= k < |init| - 1
      ensures init[k + 1] == init[k] + size
    {
      assert init[k] == offs[k] && init[k + 1] == offs[k + 1];
    }
    GatherOrdered(audio, size, targetSr, asr, init, g);
    if |init| > 0 {
      assert offs[|offs| - 1] == init[|init| - 1] + size;
    }
  }

  /** An ordered run with nothing after `bound`, followed by an ordered run that starts at
      `bound` or later and has nothing after `top`, is an ordered run with nothing after `top`. */
  lemma OrderedStep(s: seq<Stamp>, t: seq<Stamp>, bound: real, top: real)
    requires StartsOrdered(s) && StartsOrdered(t) && bound <= top
    requires forall p :: 0 <= p < |s| ==> s[p].start <= bound
    requires forall q :: 0 <= q < |t| ==> bound <= t[q].start <= top
    ensures StartsOrdered(s + t)
    ensures forall p :: 0 <= p < |s + t| ==> (s + t)[p].start <= top
  {
    OrderedConcat(s, t, bound);
    var u := s + t;
    forall p | 0 <= p < |u|
      ensures u[p].start <= top
    {
      if p < |s| {
        assert u[p] == s[p];
      } else {
        assert u[p] == t[p - |s|];
      }
    }
  }

  /** Ordering: when the engine returns, for every chunk, stamps ordered by start and starting
      within that chunk, each whole stream is ordered by start, without any re-sorting. */
  lemma TranscriptOrdered(audio: seq<Sample>, chunkSeconds: real, targetSr: int, asr: Engine, g: Granularity)
    requires targetSr > 0 && ChunkSizeSamples(chunkSeconds, targetSr) > 0
    requires var size := ChunkSizeSamples(chunkSeconds, targetSr);
      var cs := Chunks(audio, size);
      forall k :: 0 <= k < |cs| ==> WellTimed(Select(asr(cs[k]), g), |cs[k]| as real / targetSr as real)
    ensures StartsOrdered(SelectStream(Transcript(audio, chunkSeconds, targetSr, asr), g))
  {
    var size := ChunkSizeSamples(chunkSeconds, targetSr);
    var offs := ChunkOffsets(|audio|, size);
    assert forall k :: 0 <= k < |offs| ==> Chunks(audio, size)[k] == ChunkAt(audio, offs[k], size);
    forall k | 0 <= k < |offs| - 1
      ensures offs[k + 1] == offs[k] + size
    {
      OffsetsConsecutive(|audio|, size, k);
    }
    GatherOrdered(audio, size, targetSr, asr, offs, g);
  }
}
