/** Outgoing command lines: how a command is rendered (formatCommand) and
    which command family the engine then expects replies from (the
    `AT(\+[A-Z]+)` match taken on every transmitted line). */
module Commands {
  import opened Packets
  import opened GoStrings

  predicate IsUpper(c: char) {
    'A' <= c <= 'Z'
  }

  /** A command-family prefix: '+' followed by one or more upper-case letters. */
  predicate IsCommandPrefix(p: string) {
    |p| >= 2 && p[0] == '+' && forall i :: 1 <= i < |p| ==> IsUpper(p[i])
  }

  /** formatCommand: "AT", the command, "=" and the rendered arguments when
      there are any, and the line terminator. */
  function FormatCommand(c: Codec, cmd: string, args: seq<Arg>): (r: string)
    ensures |r| >= |cmd| + 4 && r[0] == 'A' && r[1] == 'T'
    ensures r[|r| - 2] == '\r' && r[|r| - 1] == '\n'
  {
    "AT" + cmd + (if |args| > 0 then "=" + c.quotes(args) else "") + "\r\n"
  }

  /** A command line is "AT", the command, then "=" and the arguments
      exactly when there are any, and the line terminator. */
  lemma FormatCommandShape(c: Codec, cmd: string, args: seq<Arg>)
    ensures var r := FormatCommand(c, cmd, args);
            && HasPrefix(r, "AT" + cmd)
            && |r| >= |cmd| + 4 && r[|r| - 2] == '\r' && r[|r| - 1] == '\n'
            && (args == [] <==> r == "AT" + cmd + "\r\n")
            && (args != [] ==> r[|cmd| + 2] == '=')
  {
    var r := FormatCommand(c, cmd, args);
    assert r[..|cmd| + 2] == "AT" + cmd;
    if args != [] {
      assert |r| > |"AT" + cmd + "\r\n"|;
    }
  }

  /** Length of the run of upper-case letters that starts s. */
  function UpperRun(s: string): (n: nat)
    ensures n <= |s|
    ensures forall i :: 0 <= i < n ==> IsUpper(s[i])
    ensures n == |s| || !IsUpper(s[n])
  {
    if s == [] || !IsUpper(s[0]) then 0 else 1 + UpperRun(s[1..])
  }

  /** The upper-case run is exactly n long when the first n bytes are
      upper-case letters and the next is not. */
  lemma {:induction false} UpperRunExact(s: string, n: nat)
    requires n <= |s|
    requires forall i :: 0 <= i < n ==> IsUpper(s[i])
    requires n == |s| || !IsUpper(s[n])
    ensures UpperRun(s) == n
  {
    if n > 0 {
      UpperRunExact(s[1..], n - 1);
    }
  }

  /** `AT(\+[A-Z]+)` matches line at byte i. */
  predicate MatchAt(line: string, i: nat) {
    i + 4 <= |line| && line[i..i + 3] == "AT+" && IsUpper(line[i + 3])
  }

  /** The submatch of a match at byte i: '+' and the greedy run of
      upper-case letters after it. */
  function Capture(line: string, i: nat): (r: string)
    requires MatchAt(line, i)
    ensures IsCommandPrefix(r)
    ensures i + 2 + |r| <= |line|
    ensures r == line[i + 2..i + 2 + |r|]
    ensures i + 2 + |r| == |line| || !IsUpper(line[i + 2 + |r|])
  {
    var n := UpperRun(line[i + 3..]);
    assert line[i + 2] == '+';
    assert line[i + 3..][..n] == line[i + 3..i + 3 + n];
    "+" + line[i + 3..i + 3 + n]
  }

  /** The leftmost match at or after byte k, or -1. */
  function FirstMatch(line: string, k: nat): (r: int)
    decreases |line| - k
    ensures r == -1 || (k <= r && MatchAt(line, r))
    ensures forall i: nat :: k <= i && (r == -1 || i < r) ==> !MatchAt(line, i)
  {
    if k + 4 > |line| then -1
    else if MatchAt(line, k) then k
    else FirstMatch(line, k + 1)
  }

  /** The command family of a transmitted line: the submatch of the leftmost
      match of `AT(\+[A-Z]+)`, if the line has one. */
  function QuestionPrefix(line: string): (r: Option<string>)
    ensures r.Some? ==> IsCommandPrefix(r.value)
    ensures r.None? <==> forall i: nat :: !MatchAt(line, i)
    ensures r.Some? ==> exists i: nat :: && MatchAt(line, i)
                                         && (forall j: nat :: j < i ==> !MatchAt(line, j))
                                         && r.value == Capture(line, i)
  {
    var k := FirstMatch(line, 0);
    if k < 0 then None
    else
      assert forall j: nat :: j < k ==> !MatchAt(line, j);
      Some(Capture(line, k))
  }

  /** A line that starts with "AT" and a family prefix not followed by
      another upper-case letter captures exactly that prefix at byte 0. */
  lemma CaptureAtStart(line: string, p: string)
    requires IsCommandPrefix(p) && |line| >= 2 + |p| && line[..2 + |p|] == "AT" + p
    requires 2 + |p| == |line| || !IsUpper(line[2 + |p|])
    ensures MatchAt(line, 0) && Capture(line, 0) == p
  {
    assert line[..3] == "AT+";
    var rest := line[3..];
    assert forall i :: 0 <= i < |p| - 1 ==> rest[i] == p[i + 1];
    UpperRunExact(rest, |p| - 1);
    assert line[..2 + |p|][2..] == p;
  }

  /** A command that starts with a family prefix makes that prefix the
      expected one, whatever its arguments. */
  lemma FormatCommandPrefix(c: Codec, p: string, tail: string, args: seq<Arg>)
    requires IsCommandPrefix(p)
    requires tail == [] || !IsUpper(tail[0])
    ensures QuestionPrefix(FormatCommand(c, p + tail, args)) == Some(p)
  {
    var line := FormatCommand(c, p + tail, args);
    assert line[..2 + |p|] == "AT" + p;
    assert line[2 + |p|] == if tail == [] then (if |args| > 0 then '=' else '\r') else tail[0];
    CaptureAtStart(line, p);
    assert FirstMatch(line, 0) == 0;
  }

  /** The echo the engine waits for after a command without arguments is the
      command line without its terminator. */
  lemma EchoOfCommand(c: Codec, cmd: string)
    requires cmd == [] || !IsLineEnd(cmd[|cmd| - 1])
    ensures TrimLineEnd(FormatCommand(c, cmd, [])) == "AT" + cmd
  {
    var line := FormatCommand(c, cmd, []);
    var x := "AT" + cmd;
    assert !IsLineEnd(x[|x| - 1]);
    assert line[..|line| - 1] == x + "\r";
    assert (x + "\r")[..|x|] == x;
    assert TrimLineEnd(x) == x;
    assert TrimLineEnd(x + "\r") == x;
  }
}
