/** `transcribe_audio` as a whole: cut the samples into chunks, collect the rebased stamps of every
    chunk, then write the SubRip file and, when asked for, the clean-text file. The two files are
    returned as the strings written into them. */
module Transcribe {
  import opened Wrappers
  import opened Lines
  import opened Chunking
  import opened Timeline
  import opened Emit

  /** The defaults of `transcribe_audio`: chunks of 720 seconds at 16000 samples per second. */
  const DefaultChunkSeconds: real := 720.0
  const DefaultTargetSr: int := 16000

  /** With the defaults every chunk holds 11 520 000 samples. */
  lemma DefaultChunkSize()
    ensures ChunkSizeSamples(DefaultChunkSeconds, DefaultTargetSr) == 11520000
  {
  }

  /** `transcribe_audio(audio_data, name, chunk_size_seconds, target_sr, save_clean_text)`. The
      chunk size must not truncate to 0, where `range` raises. */
  method TranscribeAudio(audio: seq<Sample>, chunkSeconds: real, targetSr: int, saveCleanText: bool, asr: Engine)
    returns (srt: string, cleanText: Option<string>)
    requires ChunkSizeSamples(chunkSeconds, targetSr) != 0
    ensures srt == SrtText(Transcript(audio, chunkSeconds, targetSr, asr).segments)
    ensures cleanText == if saveCleanText then Some(CleanText(Transcript(audio, chunkSeconds, targetSr, asr).segments))
                         else None
  {
    var streams := ProcessChunks(audio, chunkSeconds, targetSr, asr);
    srt := EmitSrt(streams.segments);
    cleanText := EmitCleanText(streams.segments, saveCleanText);
  }

  /** An empty recording still writes both files, and both are empty. */
  lemma EmptyRecording(chunkSeconds: real, targetSr: int, asr: Engine)
    requires ChunkSizeSamples(chunkSeconds, targetSr) != 0
    ensures var segments := Transcript([], chunkSeconds, targetSr, asr).segments;
      SrtText(segments) == "" && CleanText(segments) == ""
  {
    EmptyTranscript([], chunkSeconds, targetSr, asr);
  }

  /** Stamps that can be written to and read back from a SubRip file: they start and end at
      non-negative times and their text holds no line break. */
  predicate Plain(stamps: seq<Stamp>) {
    forall j :: 0 <= j < |stamps| ==>
      stamps[j].start >= 0.0 && stamps[j].end >= 0.0 && NoNewline(stamps[j].text)
  }

  lemma PlainConcat(s: seq<Stamp>, t: seq<Stamp>)
    requires Plain(s) && Plain(t)
    ensures Plain(s + t)
  {
    var u := s + t;
    forall j | 0 <= j < |u|
      ensures u[j].start >= 0.0 && u[j].end >= 0.0 && NoNewline(u[j].text)
    {
      if j < |s| {
        assert u[j] == s[j];
      } else {
        assert u[j] == t[j - |s|];
      }
    }
  }

  /** Rebasing by a non-negative chunk start keeps stamps plain. */
  lemma RebasePlain(stamps: seq<Stamp>, delta: real)
    requires Plain(stamps) && delta >= 0.0
    ensures Plain(Rebase(stamps, delta))
  {
    var r := Rebase(stamps, delta);
    forall j | 0 <= j < |r|
      ensures r[j].start >= 0.0 && r[j].end >= 0.0 && NoNewline(r[j].text)
    {
      assert r[j] == RebaseStamp(stamps[j], delta);
    }
  }

  /** A stream stays plain when the engine's stamps are plain for every chunk. */
  lemma {:induction false} GatherPlain(audio: seq<Sample>, size: int, targetSr: int, asr: Engine,
                                        offs: seq<nat>, g: Granularity)
    requires targetSr > 0
    requires forall k :: 0 <= k < |offs| ==> Plain(Select(asr(ChunkAt(audio, offs[k], size)), g))
    ensures Plain(Gather(audio, size, targetSr, asr, offs, g))
  {
    if offs != [] {
      var init, i := offs[..|offs| - 1], offs[|offs| - 1];
      assert Plain(Gather(audio, size, targetSr, asr, init, g)) by {
        forall k | 0 <= k < |init|
          ensures Plain(Select(asr(ChunkAt(audio, init[k], size)), g))
        {
          assert init[k] == offs[k];
        }
        GatherPlain(audio, size, targetSr, asr, init, g);
      }
      assert Plain(Contribution(audio, size, targetSr, asr, i, g)) by {
        RebasePlain(Select(asr(ChunkAt(audio, i, size)), g), ChunkStartTime(i, targetSr));
      }
      PlainConcat(Gather(audio, size, targetSr, asr, init, g), Contribution(audio, size, targetSr, asr, i, g));
    }
  }

  /** End to end: when the engine returns, for every chunk, segments with non-negative times and
      one-line texts, the SubRip file written for the recording reads back as one cue per segment of
      the stream, numbered from 1, with the rebased times truncated to milliseconds. */
  lemma TranscriptSrtReadsBack(audio: seq<Sample>, chunkSeconds: real, targetSr: int, asr: Engine)
    requires targetSr > 0 && ChunkSizeSamples(chunkSeconds, targetSr) != 0
    requires var cs := Chunks(audio, ChunkSizeSamples(chunkSeconds, targetSr));
      forall k :: 0 <= k < |cs| ==> Plain(asr(cs[k]).segments)
    ensures var segments := Transcript(audio, chunkSeconds, targetSr, asr).segments;
      Plain(segments) && ParseSrt(SrtText(segments)) == Some(ExpectedCues(segments))
  {
    var size := ChunkSizeSamples(chunkSeconds, targetSr);
    var offs := ChunkOffsets(|audio|, size);
    assert forall k :: 0 <= k < |offs| ==> Chunks(audio, size)[k] == ChunkAt(audio, offs[k], size);
    GatherPlain(audio, size, targetSr, asr, offs, Segment);
    var segments := Transcript(audio, chunkSeconds, targetSr, asr).segments;
    assert segments == Gather(audio, size, targetSr, asr, offs, Segment);
    SrtRoundTrip(segments);
  }

  /** End to end for the clean-text file: with one-line segment texts it holds exactly the texts of
      the segment stream, one per line, in order. */
  lemma TranscriptCleanTextReadsBack(audio: seq<Sample>, chunkSeconds: real, targetSr: int, asr: Engine)
    requires targetSr > 0 && ChunkSizeSamples(chunkSeconds, targetSr) != 0
    requires var cs := Chunks(audio, ChunkSizeSamples(chunkSeconds, targetSr));
      forall k :: 0 <= k < |cs| ==> Plain(asr(cs[k]).segments)
    ensures var segments := Transcript(audio, chunkSeconds, targetSr, asr).segments;
      SplitLines(CleanText(segments)) == Texts(segments)
  {
    TranscriptSrtReadsBack(audio, chunkSeconds, targetSr, asr);
    CleanTextRoundTrip(Transcript(audio, chunkSeconds, targetSr, asr).segments);
  }
}
