/** The line framer: the loop that turns the modem's byte stream into
    trimmed, non-empty lines. A line ends at a line feed (byte 10), or as
    soon as the bytes gathered for it are exactly the body prompt "> ",
    which the modem does not terminate. */
module Framer {
  import opened Packets
  import opened GoStrings

  /** The bytes gathered so far complete a line. */
  predicate EndsLine(chunk: string) {
    (|chunk| > 0 && chunk[|chunk| - 1] == '\n') || chunk == BODY_PROMPT
  }

  /** A line as the framer emits it: not empty, no line feed inside, no
      carriage return or line feed at the end. */
  predicate WellFormedLine(line: string) {
    line != "" && '\n' !in line && !IsLineEnd(line[|line| - 1])
  }

  /** The length of the first complete line of s, looking at prefixes of
      length k and more. */
  function CutFrom(s: string, k: nat): (r: Option<nat>)
    requires k >= 1
    decreases |s| + 1 - k
    ensures r.Some? ==> k <= r.value <= |s|
  {
    if k > |s| then None
    else if EndsLine(s[..k]) then Some(k)
    else CutFrom(s, k + 1)
  }

  /** CutFrom finds the shortest complete line of length k or more. */
  lemma {:induction false} CutFromShortest(s: string, k: nat)
    requires k >= 1
    decreases |s| + 1 - k
    ensures var r := CutFrom(s, k);
            && (r.Some? ==> EndsLine(s[..r.value]))
            && forall j :: k <= j <= |s| && (r.None? || j < r.value) ==> !EndsLine(s[..j])
  {
    if k <= |s| && !EndsLine(s[..k]) {
      CutFromShortest(s, k + 1);
    }
  }

  /** Conversely, the first complete prefix at or after k is the one CutFrom
      finds. */
  lemma {:induction false} CutFromFirst(s: string, k: nat, m: nat)
    requires 1 <= k <= m <= |s| && EndsLine(s[..m])
    requires forall j :: k <= j < m ==> !EndsLine(s[..j])
    decreases m - k
    ensures CutFrom(s, k) == Some(m)
  {
    if k < m {
      CutFromFirst(s, k + 1, m);
    }
  }

  /** The first line cut from s, trimmed, is well formed unless it is empty. */
  lemma FirstLineWellFormed(s: string, k: nat)
    requires CutFrom(s, 1) == Some(k)
    ensures var line := TrimLineEnd(s[..k]); line == "" || WellFormedLine(line)
  {
    var chunk := s[..k];
    var line := TrimLineEnd(chunk);
    CutFromShortest(s, 1);
    if line != "" {
      forall j | 0 <= j < |line|
        ensures line[j] != '\n'
      {
        if j < k - 1 {
          assert !EndsLine(s[..j + 1]);
          assert s[..j + 1][j] == line[j];
        } else {
          assert !IsLineEnd(line[|line| - 1]);
        }
      }
    }
  }

  /** The lines the framer emits for the byte stream s, in order. Bytes after
      the last complete line are never emitted (the stream ended). Every
      emitted line is non-empty, has no line feed inside and no carriage
      return or line feed at its end. */
  function Lines(s: string): (r: seq<string>)
    decreases |s|
    ensures forall i :: 0 <= i < |r| ==> WellFormedLine(r[i])
  {
    match CutFrom(s, 1)
    case None => []
    case Some(k) =>
      var line := TrimLineEnd(s[..k]);
      FirstLineWellFormed(s, k);
      (if line == "" then [] else [line]) + Lines(s[k..])
  }

  /** Lines unfolded once at the first cut. */
  lemma LinesAtCut(s: string, k: nat)
    requires CutFrom(s, 1) == Some(k)
    ensures var line := TrimLineEnd(s[..k]);
            Lines(s) == (if line == "" then [] else [line]) + Lines(s[k..])
  {
  }

  /** The lines of the stream from pos are the line cut at next, unless it
      is empty after trimming, followed by the lines from next. */
  lemma LinesFrom(input: string, pos: nat, next: nat)
    requires pos < next <= |input| && CutFrom(input[pos..], 1) == Some(next - pos)
    ensures var line := TrimLineEnd(input[pos..next]);
            Lines(input[pos..]) == (if line == "" then [] else [line]) + Lines(input[next..])
  {
    var rest := input[pos..];
    LinesAtCut(rest, next - pos);
    assert rest[next - pos..] == input[next..];
    assert rest[..next - pos] == input[pos..next];
  }

  lemma AppendShift<T>(done: seq<T>, mid: seq<T>, emitted: seq<T>, tail: seq<T>, whole: seq<T>)
    requires done + mid == whole && mid == emitted + tail
    ensures (done + emitted) + tail == whole
  {
  }

  /** One step of the framing loop keeps the lines emitted so far, followed
      by the lines still to come, equal to all the lines of the stream. */
  lemma LinesStep(input: string, pos: nat, next: nat, done: seq<string>)
    requires pos < next <= |input| && CutFrom(input[pos..], 1) == Some(next - pos)
    requires done + Lines(input[pos..]) == Lines(input)
    ensures var line := TrimLineEnd(input[pos..next]);
            (done + if line == "" then [] else [line]) + Lines(input[next..]) == Lines(input)
  {
    LinesFrom(input, pos, next);
    var line := TrimLineEnd(input[pos..next]);
    AppendShift(done, Lines(input[pos..]), if line == "" then [] else [line], Lines(input[next..]), Lines(input));
  }

  /** No complete line in s: nothing is emitted. */
  lemma LinesNoCut(s: string)
    requires CutFrom(s, 1) == None
    ensures Lines(s) == []
  {
  }

  /** The inner loop of lineChannel: gather bytes from pos until they form a
      complete line. `complete` is false when the stream ends first; the
      bytes gathered then are never emitted. */
  method ReadChunk(input: string, pos: nat) returns (all: string, next: nat, complete: bool)
    requires pos <= |input|
    ensures pos <= next <= |input| && all == input[pos..next]
    ensures complete ==> pos < next && CutFrom(input[pos..], 1) == Some(next - pos)
    ensures !complete ==> CutFrom(input[pos..], 1) == None
  {
    ghost var rest := input[pos..];
    all, next := [], pos;
    while true
      invariant pos <= next <= |input| && all == input[pos..next]
      invariant all == rest[..|all|]
      invariant CutFrom(rest, 1) == CutFrom(rest, |all| + 1)
      decreases |input| - next
    {
      if next == |input| {
        return all, next, false;
      }
      var b := input[next];
      next := next + 1;
      all := all + [b];
      assert all == rest[..|all|];
      if b == '\n' || all == BODY_PROMPT {
        return all, next, true;
      }
    }
  }

  /** The framing loop of lineChannel, on a finite stream: gather bytes until
      a line is complete, trim it, and emit it unless it is empty; at the end
      of the stream, stop. */
  method Frame(input: string) returns (lines: seq<string>)
    ensures lines == Lines(input)
  {
    lines := [];
    var pos := 0;
    while pos < |input|
      invariant 0 <= pos <= |input|
      invariant lines + Lines(input[pos..]) == Lines(input)
      decreases |input| - pos
    {
      var all, next, complete := ReadChunk(input, pos);
      if !complete {
        LinesNoCut(input[pos..]);
        return;
      }
      LinesStep(input, pos, next, lines);
      var line := TrimLineEnd(all);
      pos := next;
      lines := lines + (if line == "" then [] else [line]);
    }
    LinesNoCut(input[pos..]);
  }

  /** The body prompt is a line of its own, with no terminator needed. */
  lemma PromptLine(rest: string)
    ensures Lines(BODY_PROMPT + rest) == [BODY_PROMPT] + Lines(rest)
  {
    var s := BODY_PROMPT + rest;
    assert !EndsLine(s[..1]);
    assert s[..2] == BODY_PROMPT;
    assert CutFrom(s, 1) == Some(2);
    assert s[2..] == rest;
  }

  /** A line the modem terminates with "\r\n" and that could not be mistaken
      for the prompt. */
  predicate Framable(line: string) {
    WellFormedLine(line) && !HasPrefix(line, BODY_PROMPT)
  }

  /** A terminated line is emitted as itself. */
  lemma TerminatedLine(line: string, rest: string)
    requires Framable(line)
    ensures Lines(line + "\r\n" + rest) == [line] + Lines(rest)
  {
    var s := line + "\r\n" + rest;
    var k := |line| + 2;
    forall j | 1 <= j < k
      ensures !EndsLine(s[..j])
    {
      if j - 1 < |line| {
        assert s[j - 1] == line[j - 1];
      }
      if j == 2 && |line| >= 2 {
        assert s[..2] == line[..2];
      }
      if j == 2 && |line| == 1 {
        assert s[1] == '\r';
      }
    }
    assert EndsLine(s[..k]);
    CutFromFirst(s, 1, k);
    var chunk := s[..k];
    assert chunk == line + "\r\n";
    assert chunk[..k - 1] == line + "\r";
    assert (line + "\r")[..|line|] == line;
    assert TrimLineEnd(line) == line;
    assert TrimLineEnd(chunk) == line;
    assert s[k..] == rest;
  }

  /** A blank line is dropped. */
  lemma BlankLine(rest: string)
    ensures Lines("\r\n" + rest) == Lines(rest)
  {
    var s := "\r\n" + rest;
    assert !EndsLine(s[..1]);
    assert EndsLine(s[..2]);
    assert CutFrom(s, 1) == Some(2);
    assert s[..2] == "\r\n";
    assert TrimLineEnd("\r") == "";
    assert TrimLineEnd(s[..2]) == "";
    assert s[2..] == rest;
  }

  /** The wire form of a sequence of lines, each terminated by "\r\n". */
  function Terminated(lines: seq<string>): string
  {
    if lines == [] then "" else lines[0] + "\r\n" + Terminated(lines[1..])
  }

  /** Framing inverts terminating: lines written with "\r\n" after each come
      back out one for one. */
  lemma {:induction false} FrameTerminated(lines: seq<string>)
    requires forall i :: 0 <= i < |lines| ==> Framable(lines[i])
    ensures Lines(Terminated(lines)) == lines
  {
    if lines != [] {
      FrameTerminated(lines[1..]);
      TerminatedLine(lines[0], Terminated(lines[1..]));
      assert lines[0] + "\r\n" + Terminated(lines[1..]) == Terminated(lines);
    }
  }
}
