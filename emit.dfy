/** The two writers at the end of `transcribe_audio`: the SubRip file built from the segment
    stream, and the optional clean-text file with one line per segment. Files are modelled as the
    strings that are written into them. */
module Emit {
  import opened Wrappers
  import opened Decimal
  import opened SrtTime
  import opened Lines
  import opened Timeline
  import opened Seqs

  /** The time range line of a cue, `START --> END`. */
  function TimeRange(st: Stamp): (s: string)
    ensures NoNewline(s)
  {
    TimeRangePlain(st.start, st.end);
    FormatSrtTime(st.start) + " --> " + FormatSrtTime(st.end)
  }

  /** The three writes for the cue numbered n: its index, its time range, its text and a blank line. */
  function SrtBlock(n: nat, st: Stamp): (s: string)
    ensures s == JoinLines(CueLines(n, st))
  {
    JoinFour(DigitsOf(n), TimeRange(st), st.text);
    DigitsOf(n) + "\n" + TimeRange(st) + "\n" + st.text + "\n\n"
  }

  /** The three writes of a cue, one after the other, append exactly its block. */
  lemma BlockWrites(before: string, index: string, start: string, end: string, text: string)
    ensures before + index + "\n" + start + " --> " + end + "\n" + text + "\n\n"
         == before + (index + "\n" + (start + " --> " + end) + "\n" + text + "\n\n")
  {
  }

  /** The SubRip file for a segment stream; the k-th segment (from 0) becomes cue k + 1. */
  function SrtText(segments: seq<Stamp>): (s: string)
    ensures s == "" <==> segments == []
  {
    if segments == [] then ""
    else SrtText(segments[..|segments| - 1]) + SrtBlock(|segments|, segments[|segments| - 1])
  }

  lemma SrtTextSnoc(segments: seq<Stamp>, i: nat)
    requires i < |segments|
    ensures SrtText(segments[..i + 1]) == SrtText(segments[..i]) + SrtBlock(i + 1, segments[i])
  {
    assert segments[..i + 1][..i] == segments[..i];
  }

  /** The clean-text file for a segment stream: each segment's text on a line of its own. */
  function CleanText(segments: seq<Stamp>): (s: string)
    ensures s == "" <==> segments == []
  {
    if segments == [] then ""
    else CleanText(segments[..|segments| - 1]) + segments[|segments| - 1].text + "\n"
  }

  /** The SubRip writer loop (`enumerate(segment_timestamps)`, three writes per segment). */
  method EmitSrt(segments: seq<Stamp>) returns (srt: string)
    ensures srt == SrtText(segments)
  {
    srt := "";
    for i := 0 to |segments|
      invariant srt == SrtText(segments[..i])
    {
      var stamp := segments[i];
      var startTimeFormatted := FormatSrtTime(stamp.start);
      var endTimeFormatted := FormatSrtTime(stamp.end);
      var text := stamp.text;
      ghost var before := srt;
      srt := srt + DigitsOf(i + 1) + "\n";
      srt := srt + startTimeFormatted + " --> " + endTimeFormatted + "\n";
      srt := srt + text + "\n\n";
      assert srt == before + SrtBlock(i + 1, stamp) by {
        BlockWrites(before, DigitsOf(i + 1), startTimeFormatted, endTimeFormatted, text);
      }
      SrtTextSnoc(segments, i);
    }
    assert segments[..|segments|] == segments;
  }

  /** The clean-text writer: nothing when `save_clean_text` is false, else one line per segment. */
  method EmitCleanText(segments: seq<Stamp>, saveCleanText: bool) returns (text: Option<string>)
    ensures text == if saveCleanText then Some(CleanText(segments)) else None
  {
    if !saveCleanText {
      return None;
    }
    var out := "";
    for i := 0 to |segments|
      invariant out == CleanText(segments[..i])
    {
      out := out + segments[i].text + "\n";
      assert segments[..i + 1][..i] == segments[..i];
    }
    assert segments[..|segments|] == segments;
    text := Some(out);
  }

  // Reading the files back

  /** A cue as read back from a SubRip file: index, start and end in milliseconds, text. */
  datatype Cue = Cue(index: nat, startMs: int, endMs: int, text: string)

  datatype Range = Range(startMs: int, endMs: int)

  function ParseTimeRange(line: string): Option<Range> {
    var p := IndexOf(line, ' ');
    if p + 5 > |line| || line[p..p + 5] != " --> " then None
    else match (ParseSrtTime(line[..p]), ParseSrtTime(line[p + 5..]))
      case (Some(a), Some(b)) => Some(Range(a, b))
      case _ => None
  }

  /** Four lines: a decimal index, a time range, a text line and a blank line. */
  function ParseCue(group: seq<string>): Option<Cue> {
    if |group| != 4 || group[0] == "" || !IsDigits(group[0]) || group[3] != "" then None
    else match ParseTimeRange(group[1])
      case Some(r) => Some(Cue(ParseDigits(group[0]), r.startMs, r.endMs, group[2]))
      case None => None
  }

  /** Consecutive groups of four lines, each read by `parse`. */
  function ParseGroups(lines: seq<string>, parse: seq<string> -> Option<Cue>): Option<seq<Cue>>
    decreases |lines|
  {
    if lines == [] then Some([])
    else if |lines| < 4 then None
    else
      var c, rest := parse(lines[..4]), ParseGroups(lines[4..], parse);
      if c.Some? && rest.Some? then Some([c.value] + rest.value) else None
  }

  /** A SubRip text read back as its cues; None when it is not a sequence of four-line cues. */
  function ParseSrt(s: string): Option<seq<Cue>> {
    ParseGroups(SplitLines(s), ParseCue)
  }

  /** What each segment should read back as: cue k + 1, its times truncated to milliseconds. */
  function ExpectedCues(segments: seq<Stamp>): (cues: seq<Cue>)
    requires forall k :: 0 <= k < |segments| ==> segments[k].start >= 0.0 && segments[k].end >= 0.0
    ensures |cues| == |segments|
  {
    seq(|segments|, k requires 0 <= k < |segments| =>
      Cue(k + 1, (segments[k].start * 1000.0).Floor, (segments[k].end * 1000.0).Floor, segments[k].text))
  }

  function CueLines(n: nat, st: Stamp): seq<string> {
    [DigitsOf(n), TimeRange(st), st.text, ""]
  }

  function SrtLines(segments: seq<Stamp>): (lines: seq<string>)
    ensures |lines| == 4 * |segments|
  {
    if segments == [] then []
    else SrtLines(segments[..|segments| - 1]) + CueLines(|segments|, segments[|segments| - 1])
  }

  lemma {:induction false} SrtTextLines(segments: seq<Stamp>)
    ensures SrtText(segments) == JoinLines(SrtLines(segments))
  {
    if segments != [] {
      var init, last := segments[..|segments| - 1], segments[|segments| - 1];
      SrtTextLines(init);
      JoinAppend(SrtLines(init), CueLines(|segments|, last));
      JoinFour(DigitsOf(|segments|), TimeRange(last), last.text);
    }
  }

  /** A time range line splits at its first blank when the start field holds none. */
  lemma ArrowSplit(a: string, b: string)
    requires IndexOf(a, ' ') == |a|
    ensures var line := a + " --> " + b;
      IndexOf(line, ' ') == |a| && line[..|a|] == a && line[|a|..|a| + 5] == " --> " && line[|a| + 5..] == b
  {
    AppendAssoc(a, " --> ", b);
    IndexAt(a, ' ', " --> " + b);
    ThreeParts(a, " --> ", b);
  }

  lemma ParseArrow(a: string, b: string, x: int, y: int)
    requires IndexOf(a, ' ') == |a|
    requires ParseSrtTime(a) == Some(x) && ParseSrtTime(b) == Some(y)
    ensures ParseTimeRange(a + " --> " + b) == Some(Range(x, y))
  {
    ArrowSplit(a, b);
  }

  /** A time range line of two non-negative times reads back as both times truncated to whole
      milliseconds. */
  lemma ParseTimeRangeOf(start: real, end: real)
    requires start >= 0.0 && end >= 0.0
    ensures ParseTimeRange(FormatSrtTime(start) + " --> " + FormatSrtTime(end))
         == Some(Range((start * 1000.0).Floor, (end * 1000.0).Floor))
  {
    var a, b := FormatSrtTime(start), FormatSrtTime(end);
    var x, y := (start * 1000.0).Floor, (end * 1000.0).Floor;
    assert ParseSrtTime(a) == Some(x) by {
      ParseFormat(start);
    }
    assert ParseSrtTime(b) == Some(y) by {
      ParseFormat(end);
    }
    assert IndexOf(a, ' ') == |a| by {
      FormatPlain(start);
    }
    ParseArrow(a, b, x, y);
  }

  lemma {:induction false} ParseGroupsAppend(a: seq<string>, b: seq<string>, parse: seq<string> -> Option<Cue>,
                                              ca: seq<Cue>, cb: seq<Cue>)
    requires ParseGroups(a, parse) == Some(ca) && ParseGroups(b, parse) == Some(cb)
    ensures ParseGroups(a + b, parse) == Some(ca + cb)
    decreases |a|
  {
    if a == [] {
      assert a + b == b && ca + cb == cb;
    } else {
      var c := parse(a[..4]);
      var rest := ParseGroups(a[4..], parse);
      var ab := a + b;
      CutAppend(a, b, 4);
      ParseGroupsAppend(a[4..], b, parse, rest.value, cb);
      AppendAssoc([c.value], rest.value, cb);
    }
  }

  /** SubRip round trip: for segments that start and end at non-negative times and whose texts hold
      no newline, the file reads back as exactly one cue per segment, numbered 1, 2, ... in stream
      order, each with the segment's times truncated to whole milliseconds and its text. */
  lemma {:induction false} SrtRoundTrip(segments: seq<Stamp>)
    requires forall k :: 0 <= k < |segments| ==> segments[k].start >= 0.0 && segments[k].end >= 0.0
    requires forall k :: 0 <= k < |segments| ==> NoNewline(segments[k].text)
    ensures ParseSrt(SrtText(segments)) == Some(ExpectedCues(segments))
  {
    SrtTextLines(segments);
    SrtLinesRead(segments);
    var lines := SrtLines(segments);
    SplitJoin(lines);
  }

  /** A time range line holds no newline. */
  lemma TimeRangePlain(start: real, end: real)
    ensures NoNewline(FormatSrtTime(start) + " --> " + FormatSrtTime(end))
  {
    var a, b := FormatSrtTime(start), FormatSrtTime(end);
    FormatPlain(start);
    FormatPlain(end);
    IndexAbsentConcat(a, " --> ", '\n');
    IndexAbsentConcat(a + " --> ", b, '\n');
  }

  /** One cue's four lines, read back. */
  lemma CueRead(n: nat, line: string, text: string, r: Range)
    requires ParseTimeRange(line) == Some(r)
    requires NoNewline(line) && NoNewline(text)
    ensures ParseGroups([DigitsOf(n), line, text, ""], ParseCue) == Some([Cue(n, r.startMs, r.endMs, text)])
    ensures var group := [DigitsOf(n), line, text, ""];
      forall k :: 0 <= k < |group| ==> NoNewline(group[k])
  {
    var group := [DigitsOf(n), line, text, ""];
    var d := DigitsOf(n);
    assert forall i :: 0 <= i < |d| ==> d[i] != '\n' by {
      assert forall i :: 0 <= i < |d| ==> IsDigit(d[i]);
    }
    IndexOfAbsent(d, '\n');
    ParseDigitsOf(n);
    var c := Cue(n, r.startMs, r.endMs, text);
    assert ParseCue(group) == Some(c);
    assert group[..4] == group && group[4..] == [];
    assert ParseGroups(group[4..], ParseCue) == Some([]);
    assert [c] + [] == [c];
  }

  /** One more segment adds one more expected cue, numbered after the others. */
  lemma ExpectedSnoc(init: seq<Stamp>, last: Stamp)
    requires forall k :: 0 <= k < |init| ==> init[k].start >= 0.0 && init[k].end >= 0.0
    requires last.start >= 0.0 && last.end >= 0.0
    ensures forall k :: 0 <= k < |init + [last]| ==> (init + [last])[k].start >= 0.0 && (init + [last])[k].end >= 0.0
    ensures ExpectedCues(init + [last]) ==
      ExpectedCues(init) + [Cue(|init| + 1, (last.start * 1000.0).Floor, (last.end * 1000.0).Floor, last.text)]
  {
  }

  lemma AllNoNewline(a: seq<string>, b: seq<string>)
    requires forall k :: 0 <= k < |a| ==> NoNewline(a[k])
    requires forall k :: 0 <= k < |b| ==> NoNewline(b[k])
    ensures forall k :: 0 <= k < |a + b| ==> NoNewline((a + b)[k])
  {
  }

  /** The four lines of a cue with non-negative times and a one-line text read back as that cue,
      and none of them holds a newline. */
  lemma CueLinesRead(n: nat, st: Stamp)
    requires st.start >= 0.0 && st.end >= 0.0 && NoNewline(st.text)
    ensures ParseGroups(CueLines(n, st), ParseCue) ==
      Some([Cue(n, (st.start * 1000.0).Floor, (st.end * 1000.0).Floor, st.text)])
    ensures forall k :: 0 <= k < |CueLines(n, st)| ==> NoNewline(CueLines(n, st)[k])
  {
    TimeLineRead(n, st.start, st.end, st.text);
  }

  lemma TimeLineRead(n: nat, start: real, end: real, text: string)
    requires start >= 0.0 && end >= 0.0 && NoNewline(text)
    ensures var group := [DigitsOf(n), FormatSrtTime(start) + " --> " + FormatSrtTime(end), text, ""];
      ParseGroups(group, ParseCue) == Some([Cue(n, (start * 1000.0).Floor, (end * 1000.0).Floor, text)]) &&
      forall k :: 0 <= k < |group| ==> NoNewline(group[k])
  {
    var line := FormatSrtTime(start) + " --> " + FormatSrtTime(end);
    var r := Range((start * 1000.0).Floor, (end * 1000.0).Floor);
    assert NoNewline(line) by {
      TimeRangePlain(start, end);
    }
    assert ParseTimeRange(line) == Some(r) by {
      ParseTimeRangeOf(start, end);
    }
    CueRead(n, line, text, r);
  }

  lemma {:induction false} SrtLinesRead(segments: seq<Stamp>)
    requires forall k :: 0 <= k < |segments| ==> segments[k].start >= 0.0 && segments[k].end >= 0.0
    requires forall k :: 0 <= k < |segments| ==> NoNewline(segments[k].text)
    ensures forall k :: 0 <= k < |SrtLines(segments)| ==> NoNewline(SrtLines(segments)[k])
    ensures ParseGroups(SrtLines(segments), ParseCue) == Some(ExpectedCues(segments))
  {
    if segments != [] {
      var n := |segments|;
      var init, last := segments[..n - 1], segments[n - 1];
      assert segments == init + [last];
      SrtLinesRead(init);
      var cue := Cue(n, (last.start * 1000.0).Floor, (last.end * 1000.0).Floor, last.text);
      var group := CueLines(n, last);
      CueLinesRead(n, last);
      assert SrtLines(segments) == SrtLines(init) + group;
      ParseGroupsAppend(SrtLines(init), group, ParseCue, ExpectedCues(init), [cue]);
      assert ParseGroups(SrtLines(segments), ParseCue) == Some(ExpectedCues(init) + [cue]);
      ExpectedSnoc(init, last);
      assert ExpectedCues(segments) == ExpectedCues(init) + [cue];
      AllNoNewline(SrtLines(init), group);
    }
  }

  /** The texts of the segments, in order. */
  function Texts(segments: seq<Stamp>): (texts: seq<string>)
    ensures |texts| == |segments|
  {
    seq(|segments|, k requires 0 <= k < |segments| => segments[k].text)
  }

  lemma {:induction false} CleanTextLines(segments: seq<Stamp>)
    ensures CleanText(segments) == JoinLines(Texts(segments))
  {
    if segments != [] {
      var init, last := segments[..|segments| - 1], segments[|segments| - 1];
      CleanTextLines(init);
      assert Texts(segments) == Texts(init) + [last.text];
      JoinAppend(Texts(init), [last.text]);
    }
  }

  /** Clean-text round trip: with no newline inside a text, the file has exactly one line per
      segment, the k-th line being the k-th segment's text, without index or times. */
  lemma CleanTextRoundTrip(segments: seq<Stamp>)
    requires forall k :: 0 <= k < |segments| ==> NoNewline(segments[k].text)
    ensures SplitLines(CleanText(segments)) == Texts(segments)
  {
    CleanTextLines(segments);
    SplitJoin(Texts(segments));
  }
}
