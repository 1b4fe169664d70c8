# YT2SRC transcription core in Dafny

A model of the transcription pipeline of YT2SRC's `2src.py`. `transcribe_audio` takes a buffer of
audio samples and cuts it into fixed-length chunks. Each chunk goes to a speech recogniser, which
returns three timestamp streams: word, segment and char. Each stamp is moved by the chunk's start
time `i / target_sr`, then appended to one of three accumulated streams. At the end, the segment
stream is written as a SubRip (`.srt`) file and, optionally, as a clean-text file with one segment
text per line. `format_srt_time` turns seconds into the SubRip stamp `HH:MM:SS,mmm`.

Modules, in dependency order:

- `Wrappers`: `Option`.
- `Seqs`: small sequence identities used by the proofs.
- `Numbers`: Python's `int()` on a number (truncation toward zero).
- `Decimal`: `str(n)` and `format(n, "0Nd")` for n >= 0, and a digit parser for round trips.
- `Lines`: newline-terminated writes (`f.write(f"{x}\n")`) and splitting them back into lines.
- `SrtTime`: `format_srt_time`, with Python's `int()` (truncation), `% 1` (floored fraction) and
  `%`/`//` by 60 (floored). Also a reader for SubRip time stamps.
- `Chunking`: the chunk length `int(chunk_size_seconds * target_sr)`, the offsets of
  `range(0, len(audio_data), S)` and the clipped slices `audio_data[i:i + S]`.
- `Timeline`: the stamps, the engine as an opaque function, the chunk loop (`ProcessChunks`,
  `AppendRebased`) and the specification of the three streams (`Gather`, `Transcript`).
- `Emit`: the SubRip and clean-text writer loops, and readers that read both files back.
- `Transcribe`: `transcribe_audio` as a whole, plus end-to-end properties.

The loops of `transcribe_audio` are methods with `for` loops. Each method is proved equal to a
specification function (`Transcript`, `SrtText`, `CleanText`), and the lemmas state what the
source promises about those functions. `format_srt_time` is pure and is modelled by functions.

Times are exact `real`s. Output files are the strings written into them; the clean-text file is
`None` when `save_clean_text` is false.

The chunk length is `int(chunk_size_seconds * target_sr)`. `int(...)` truncates toward zero; for
a non-negative product that is the floor.

## Model

| member | source | states |
|---|---|---|
| `Chunking.ChunkSizeSamples` | 2src.py:37 | The chunk length is the product truncated to a whole number of samples (between product - 1 and product). It is 0 when the rate is 0. |
| `Chunking.Slice` | 2src.py:46 | Python slicing `s[lo:hi]` for 0 <= lo and 0 <= hi, with both ends clipped to the buffer. It is empty when the end is at or before the start. |
| `Chunking.ChunkAt` | 2src.py:46 | For a positive chunk size, the chunk at offset i is `audio[i .. min(i+S, len))`. It never holds more than S samples. |
| `Chunking.ChunkOffsets` | 2src.py:45 | Every offset `range(0, len, S)` visits is below the buffer length. This needs S != 0, where Python raises; a negative S gives no offsets. |
| `Chunking.OffsetsFromExact` | 2src.py:45 | The offsets from `lo` are `lo + k*S`. They are exactly as many as fit below the stop. |
| `Chunking.ChunkOffsetsExact` | 2src.py:45-46 | The offsets are exactly the `k*S` below the length (both directions). Chunk k is `audio[k*S .. min((k+1)*S, len))`. |
| `Chunking.OffsetsConsecutive` | 2src.py:45 | Consecutive chunk offsets differ by exactly S. |
| `Chunking.Chunks` | 2src.py:45-47 | The engine is called once per visited offset. |
| `Chunking.FlattenFrom` | 2src.py:45-46 | The chunks from offset `lo` on concatenate to `audio[lo..]`. |
| `Chunking.ChunksCover` | 2src.py:45-46 | The chunks concatenate back to the whole buffer: no gap, no overlap, nothing dropped. |
| `Chunking.EmptyBufferNoChunks` | 2src.py:45 | An empty buffer gives no offsets and no engine calls. |
| `Timeline.RebaseStamp` | 2src.py:52-53 | Rebasing keeps a stamp's text and duration. |
| `Timeline.ChunkStartTime` | 2src.py:50 | The start time t of the chunk at sample offset i satisfies `t * target_sr == i`. It is non-negative for a positive rate. |
| `Timeline.Rebase` | 2src.py:51-65 | Rebasing one chunk's stream keeps its length. |
| `Timeline.RebaseShift` | 2src.py:51-65 | Stamp k of a rebased stream is stamp k of the engine's stream, with its text and with `delta` added to its start and its end. |
| `Timeline.AppendRebased` | 2src.py:51-65 | Each of the three inner loops (word, segment, char): the stream grows by the chunk's stamps, rebased, in the order returned, and nothing before them changes. |
| `Timeline.ProcessChunks` | 2src.py:37-65 | The chunk loop leaves the three streams equal to `Transcript`, the chunk-by-chunk gathered streams. |
| `Timeline.GatherAppend` | 2src.py:45-65 | Processing two runs of chunks gives the two streams concatenated. The streams only grow at their end. |
| `Timeline.Gather` | 2src.py:45-65 | The stream that the loop builds over the chunks at `offs` holds exactly as many stamps as the engine returned for that granularity, summed over those chunks. |
| `Timeline.GatherPosition` | 2src.py:50-65 | Stamp j of chunk k sits right after everything from earlier chunks. It keeps its text, and its start and end gain `offset / target_sr`. |
| `Timeline.GatherOrigin` | 2src.py:51-65 | The converse of `GatherPosition`: every stamp of stream g is the rebased j-th stamp that the engine returned in granularity g for one of the chunks k. |
| `Timeline.Transcript` | 2src.py:41-65 | Each of the three streams of a recording holds exactly as many stamps as the engine returned for its granularity over all chunks. |
| `Timeline.TranscriptStreams` | 2src.py:41-65 | The streams never mix: every stamp of a recording's stream g is a rebased stamp that the engine returned in granularity g for one of its chunks. |
| `Timeline.EmptyTranscript` | 2src.py:41-45 | An empty buffer leaves all three streams empty. |
| `Timeline.ContributionOrdered` | 2src.py:50-65 | If the engine's stamps for one chunk are ordered and start inside the chunk, then after rebasing they are ordered and start inside the chunk's window on the recording's time line. |
| `Timeline.GatherOrdered` | 2src.py:45-65 | Over offsets one chunk apart, with well-timed engine output, every stream is ordered by start and bounded by the end of the last chunk's window. |
| `Timeline.TranscriptOrdered` | 2src.py:45-65 | With well-timed engine output, each whole stream is ordered by start, with no re-sorting. |
| `Decimal.DigitsOf` | 2src.py:79 | `str(n)`: at least one character, all digits, no leading zero. |
| `Decimal.ParseDigitsOf` | 2src.py:79 | The index written for a cue reads back as the same number. |
| `Decimal.ZeroPad` | 2src.py:97 | `:0Nd`: all digits, padded to the width and never cut. It is the plain digits when those are wider. |
| `Decimal.ParseZeroPad` | 2src.py:97 | Zero padding does not change the value a field reads back as. |
| `Decimal.DigitsOfLength` | 2src.py:97 | A number needs at most w digits exactly when it is below 10^w. |
| `Decimal.ZeroPadWidth` | 2src.py:97 | A field below 10^w is printed with exactly w characters. |
| `Numbers.Trunc` | 2src.py:91-92 | `int(x)` truncates toward zero: the result is within 1 of x, on the side nearer 0. |
| `SrtTime.TimeFields` | 2src.py:91-96 | Minute and second are in [0, 60) and millisecond in [0, 1000). For t >= 0: hour >= 0, `hour*3600 + minute*60 + sec == floor(t)`, and `floor(t)*1000 + millisec == floor(t*1000)`. |
| `SrtTime.HourText` | 2src.py:97 | `{hour:02d}`: at least 2 characters. It starts with `-` exactly when the hour is negative, and is all digits otherwise. |
| `SrtTime.FormatSrtTime` | 2src.py:89-97 | `format_srt_time` for every real, following Python's operators. The result has at least 12 characters. |
| `SrtTime.FormatPlain` | 2src.py:97 | A rendered time holds no blank and no newline. |
| `SrtTime.TimeTextShape` | 2src.py:97 | With fixed-width minute, second and millisecond fields, the separators sit 10, 7 and 4 characters from the end, with the fields between them. |
| `SrtTime.SplitTimeText` | 2src.py:97 | Reading a time text splits it back into its four fields. |
| `SrtTime.FormatShape` | 2src.py:97 | For t >= 0 the text is `HH:MM:SS,mmm`: 2, 2 and 3 digits, separators in fixed places, and a zero-padded hour. It is exactly 12 characters iff hour < 100 (no wrap). |
| `SrtTime.ParseFormat` | 2src.py:89-97 | For t >= 0, reading the rendered time back gives t truncated to whole milliseconds. |
| `SrtTime.FormatZero` | 2src.py:89-97 | `format_srt_time(0) == "00:00:00,000"`. |
| `SrtTime.FormatOneHourOneMinute` | 2src.py:89-97 | `format_srt_time(3661.5) == "01:01:01,500"`. |
| `SrtTime.FormatSixtyOneSeconds` | 2src.py:89-97 | `format_srt_time(61.234) == "00:01:01,234"` with exact reals. |
| `SrtTime.FormatHundredHours` | 2src.py:89-97 | `format_srt_time(360000) == "100:00:00,000"`: the hour does not wrap. |
| `SrtTime.FormatMinusOneAndAHalf` | 2src.py:89-97 | `format_srt_time(-1.5) == "-1:59:59,500"` under Python's floored `%`/`//` and truncating `int()`. |
| `Lines.SplitJoin` | 2src.py:79-87 | Newline-terminated writes split back into the written lines, if none holds a newline. |
| `Emit.TimeRange` | 2src.py:80 | The `START --> END` line holds no newline. |
| `Emit.SrtBlock` | 2src.py:79-81 | The block of cue n is four newline-terminated lines: the index n, the time range, the text and a blank line. |
| `Emit.SrtText` | 2src.py:73-81 | The SubRip text (the block of each segment k, numbered k + 1, in order) is empty exactly when there are no segments. |
| `Emit.CleanText` | 2src.py:83-87 | The clean text is empty exactly when there are no segments. |
| `Emit.EmitSrt` | 2src.py:73-81 | The writer loop produces `SrtText` of the segment stream. |
| `Emit.EmitCleanText` | 2src.py:83-87 | Nothing when `save_clean_text` is false; otherwise the writer loop produces `CleanText`. |
| `Emit.SrtTextLines` | 2src.py:79-81 | The SubRip text is the newline-terminated join of four lines per segment: index, time range, text, blank. |
| `Emit.ParseTimeRangeOf` | 2src.py:80 | A `START --> END` line of non-negative times reads back as both times truncated to milliseconds. |
| `Emit.TimeRangePlain` | 2src.py:80 | A time range line holds no newline. |
| `Emit.TimeLineRead` | 2src.py:75-81 | One cue's four lines read back as that cue (index, times in ms, text), and none holds a newline. |
| `Emit.CueLinesRead` | 2src.py:74-81 | The four lines written for a segment read back as its cue. |
| `Emit.SrtLinesRead` | 2src.py:74-81 | The SubRip lines of a segment stream read back as its expected cues, and none holds a newline. |
| `Emit.SrtRoundTrip` | 2src.py:73-81 | SubRip round trip: exactly one cue per segment, numbered 1..N in stream order, with the segment's times truncated to ms and its text. |
| `Emit.CleanTextLines` | 2src.py:85-87 | The clean text is the segment texts joined as newline-terminated lines. |
| `Emit.CleanTextRoundTrip` | 2src.py:83-87 | If no segment text holds a newline, the clean-text file has exactly N lines, and line k is segment k's text, with no index or times. |
| `Transcribe.DefaultChunkSize` | 2src.py:25-37 | With the defaults (720 s at 16000 Hz) a chunk holds 11 520 000 samples. |
| `Transcribe.TranscribeAudio` | 2src.py:25-87 | The SubRip output is `SrtText` of the transcript's segment stream. The clean text is `CleanText` of it when asked for, and nothing otherwise. |
| `Transcribe.EmptyRecording` | 2src.py:41-87 | An empty recording writes an empty SubRip file and an empty clean-text file. |
| `Transcribe.RebasePlain` | 2src.py:52-53 | Rebasing by a non-negative chunk start keeps times non-negative and texts unchanged. |
| `Transcribe.GatherPlain` | 2src.py:45-65 | If the engine's stamps are non-negative and one-line for every chunk, so is the whole stream. |
| `Transcribe.TranscriptSrtReadsBack` | 2src.py:37-81 | End to end: given such engine output, the recording's SubRip file reads back as one cue per segment, numbered 1..N, with rebased times truncated to ms. |
| `Transcribe.TranscriptCleanTextReadsBack` | 2src.py:37-87 | End to end: the clean-text file holds exactly the segment texts, one per line, in order. |

## Left out

- The speech recogniser (`nemo_asr` model loading, `asr_model.transcribe`, 2src.py:1-21, 2src.py:47): foreign library code. It is an opaque function parameter from a chunk to its three stamp sequences, and it cannot fail.
- The code has no failure handling of its own. An engine error raises out of `transcribe_audio` before any file is opened. The model's engine cannot fail.
- The recogniser's output dictionaries: they are updated in place by `+=`. The model rebuilds each stamp as a new value, because nothing else holds a reference to them.
- Audio loading (`librosa`), progress bars (`tqdm`), directory creation, logging setup and the unused `clean_transcriptions` list (2src.py:40): I/O, foreign calls, or no effect on the outputs.
- File handles and the output paths built from `name` (2src.py:67-68, 73, 84): the files are modelled as the strings written into them, so `name` is not a parameter.
- The `__main__` batch driver (2src.py:100-129): directory listing, float duration sums, wall-clock timing and `print`.
- The download scripts `download_yt.py` and `download_ytpl.py`: network downloads, media conversion and CSV reading, with no logic of their own to model.
- IEEE-754 doubles: times are exact reals. Python computes `(61.234 % 1) * 1000` just below 234 and prints `,233`; the model prints `,234`.
- A chunk length that truncates to 0: Python's `range` raises `ValueError`. This is a precondition here, not modelled behaviour.
- Negative times: `FormatSrtTime` follows Python for them (see `FormatMinusOneAndAHalf`). The field bounds on hour and the read-back properties are stated only for t >= 0.
- Chunking.Slice: Python's negative slice ends, which count from the end of the buffer, are not modelled. The loop only slices up to `i + chunk_size_samples` with a positive chunk size, so it never passes one.
- Emit.SrtRoundTrip: stated only for segments with non-negative times and no newline in their text. A text holding a newline makes the written file ambiguous to read back.
