/** Text as newline-terminated lines: joining lines the way `f.write(f"{line}\n")` does, and
    splitting them again. */
module Lines {

  /** The first position of `c` in `s`, or |s| when there is none. */
  function IndexOf(s: string, c: char): (r: nat)
    ensures r <= |s|
    ensures r < |s| ==> s[r] == c
    ensures forall j :: 0 <= j < r ==> s[j] != c
  {
    if s == [] then 0 else if s[0] == c then 0 else 1 + IndexOf(s[1..], c)
  }

  lemma IndexOfAbsent(s: string, c: char)
    requires forall j :: 0 <= j < |s| ==> s[j] != c
    ensures IndexOf(s, c) == |s|
  {
  }

  /** `line` holds no newline: the search for one runs off its end. */
  predicate NoNewline(line: string) {
    IndexOf(line, '\n') == |line|
  }

  /** When `a` holds no `c`, the first `c` of `a + rest` is the one `rest` starts with. */
  lemma IndexAt(a: string, c: char, rest: string)
    requires IndexOf(a, c) == |a| && |rest| > 0 && rest[0] == c
    ensures IndexOf(a + rest, c) == |a|
  {
    var s := a + rest;
    assert s[|a|] == c;
    assert forall j :: 0 <= j < |a| ==> s[j] == a[j];
  }

  /** Joining two strings that hold no `c` gives a string that holds none. */
  lemma {:induction false} IndexAbsentConcat(a: string, b: string, c: char)
    requires IndexOf(a, c) == |a| && IndexOf(b, c) == |b|
    ensures IndexOf(a + b, c) == |a + b|
  {
    if a != [] {
      IndexAbsentConcat(a[1..], b, c);
      assert (a + b)[1..] == a[1..] + b;
    } else {
      assert a + b == b;
    }
  }

  /** Each line followed by a newline, in order. */
  function JoinLines(lines: seq<string>): (s: string)
    ensures lines == [] <==> s == []
  {
    if lines == [] then "" else lines[0] + "\n" + JoinLines(lines[1..])
  }

  /** The newline-terminated lines of `s`; an unterminated last line counts as a line too. */
  function SplitLines(s: string): seq<string>
    decreases |s|
  {
    if s == [] then []
    else
      var i := IndexOf(s, '\n');
      if i == |s| then [s] else [s[..i]] + SplitLines(s[i + 1..])
  }

  lemma SplitFirstLine(line: string, rest: string)
    requires NoNewline(line)
    ensures SplitLines(line + "\n" + rest) == [line] + SplitLines(rest)
  {
    var s := line + "\n" + rest;
    assert s == line + ("\n" + rest);
    IndexAt(line, '\n', "\n" + rest);
    assert s[..|line|] == line;
    assert s[|line| + 1..] == rest;
  }

  /** Splitting undoes joining, as long as no line holds a newline of its own. */
  lemma {:induction false} SplitJoin(lines: seq<string>)
    requires forall k :: 0 <= k < |lines| ==> NoNewline(lines[k])
    ensures SplitLines(JoinLines(lines)) == lines
  {
    if lines != [] {
      SplitJoin(lines[1..]);
      SplitFirstLine(lines[0], JoinLines(lines[1..]));
      assert lines[0] + "\n" + JoinLines(lines[1..]) == JoinLines(lines);
    }
  }

  lemma {:induction false} JoinAppend(a: seq<string>, b: seq<string>)
    ensures JoinLines(a + b) == JoinLines(a) + JoinLines(b)
  {
    if a != [] {
      JoinAppend(a[1..], b);
      assert (a + b)[1..] == a[1..] + b;
    } else {
      assert a + b == b;
    }
  }

  /** Four lines, the last one empty, joined. */
  lemma JoinFour(a: string, b: string, c: string)
    ensures JoinLines([a, b, c, ""]) == a + "\n" + b + "\n" + c + "\n\n"
  {
    assert [a, b, c, ""][1..] == [b, c, ""];
    assert [b, c, ""][1..] == [c, ""];
    assert [c, ""][1..] == [""];
    assert JoinLines([""]) == "\n";
    assert JoinLines([c, ""]) == c + "\n\n";
    assert JoinLines([b, c, ""]) == b + "\n" + c + "\n\n";
  }

  /** Cutting a concatenation inside its first part. */
  lemma CutAppend<T>(a: seq<T>, b: seq<T>, n: nat)
    requires n <= |a|
    ensures (a + b)[..n] == a[..n] && (a + b)[n..] == a[n..] + b
  {
  }
}
