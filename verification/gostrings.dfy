/** The few functions of Go's `strings` package that the engine relies on,
    on byte strings (one char per byte). Each is given its documented
    behaviour and a contract that characterizes it. */
module GoStrings {

  /** strings.HasPrefix */
  predicate HasPrefix(s: string, prefix: string): (b: bool)
    ensures b <==> |prefix| <= |s| && s[..|prefix|] == prefix
  {
    prefix <= s
  }

  predicate IsLineEnd(c: char) {
    c == '\r' || c == '\n'
  }

  /** strings.TrimRight(s, "\r\n"): the longest prefix of s that does not end
      in a carriage return or a line feed. */
  function TrimLineEnd(s: string): (r: string)
    ensures r <= s
    ensures r == [] || !IsLineEnd(r[|r| - 1])
    ensures forall i :: |r| <= i < |s| ==> IsLineEnd(s[i])
  {
    if s == [] || !IsLineEnd(s[|s| - 1]) then s else TrimLineEnd(s[..|s| - 1])
  }

  /** ASCII white space, as strings.TrimSpace sees it on single bytes. */
  predicate IsSpace(c: char) {
    c == ' ' || c == '\t' || c == '\n' || c == '\U{B}' || c == '\U{C}' || c == '\r'
  }

  function TrimLeftSpace(s: string): (r: string)
    ensures |r| <= |s|
    ensures r == [] || !IsSpace(r[0])
    ensures r != [] ==> r[|r| - 1] == s[|s| - 1]
    ensures forall i :: 0 <= i < |s| - |r| ==> IsSpace(s[i])
  {
    if s == [] || !IsSpace(s[0]) then s else TrimLeftSpace(s[1..])
  }

  function TrimRightSpace(s: string): (r: string)
    ensures r <= s
    ensures r == [] || !IsSpace(r[|r| - 1])
    ensures forall i :: |r| <= i < |s| ==> IsSpace(s[i])
  {
    if s == [] || !IsSpace(s[|s| - 1]) then s else TrimRightSpace(s[..|s| - 1])
  }

  /** strings.TrimSpace: neither end of the result is white space, and a
      string already trimmed is returned unchanged. */
  function TrimSpace(s: string): (r: string)
    ensures |r| <= |s|
    ensures r == [] || (!IsSpace(r[0]) && !IsSpace(r[|r| - 1]))
    ensures s == [] || (!IsSpace(s[0]) && !IsSpace(s[|s| - 1])) ==> r == s
  {
    var t := TrimRightSpace(s);
    var r := TrimLeftSpace(t);
    assert r != [] ==> r[|r| - 1] == t[|t| - 1];
    r
  }

  /** A string with a prefix is that prefix followed by the rest. */
  lemma PrefixRest(s: string, prefix: string)
    requires HasPrefix(s, prefix)
    ensures s == prefix + s[|prefix|..]
  {
  }

  /** strings.TrimPrefix */
  function TrimPrefix(s: string, prefix: string): (r: string)
    ensures HasPrefix(s, prefix) ==> prefix + r == s
    ensures !HasPrefix(s, prefix) ==> r == s
  {
    if HasPrefix(s, prefix) then s[|prefix|..] else s
  }

  /** strings.TrimSuffix */
  function TrimSuffix(s: string, suffix: string): (r: string)
    ensures |suffix| <= |s| && s[|s| - |suffix|..] == suffix ==> r + suffix == s
    ensures !(|suffix| <= |s| && s[|s| - |suffix|..] == suffix) ==> r == s
  {
    if |suffix| <= |s| && s[|s| - |suffix|..] == suffix then s[..|s| - |suffix|] else s
  }

  /** sep occurs in s starting at byte i. */
  predicate OccursAt(s: string, sep: string, i: nat) {
    i + |sep| <= |s| && s[i..i + |sep|] == sep
  }

  predicate Contains(s: string, sep: string) {
    exists i: nat :: i <= |s| && OccursAt(s, sep, i)
  }

  /** The first occurrence of sep in s at or after k, or -1. */
  function IndexFrom(s: string, sep: string, k: nat): (r: int)
    decreases |s| - k
    ensures r == -1 || (k <= r && OccursAt(s, sep, r))
    ensures forall i: nat :: k <= i && (r == -1 || i < r) ==> !OccursAt(s, sep, i)
  {
    if k + |sep| > |s| then -1
    else if OccursAt(s, sep, k) then k
    else IndexFrom(s, sep, k + 1)
  }

  /** strings.Index */
  function Index(s: string, sep: string): (r: int)
    ensures r == -1 <==> !Contains(s, sep)
    ensures r != -1 ==> r >= 0 && OccursAt(s, sep, r)
    ensures forall i: nat :: i < r ==> !OccursAt(s, sep, i)
  {
    IndexFrom(s, sep, 0)
  }

  /** strings.Join */
  function Join(parts: seq<string>, sep: string): string
  {
    if |parts| == 0 then ""
    else if |parts| == 1 then parts[0]
    else parts[0] + sep + Join(parts[1..], sep)
  }

  /** strings.SplitN(s, sep, n) for n >= 1 and a non-empty separator: cut
      at the first n - 1 occurrences of sep, left to right. */
  function SplitN(s: string, sep: string, n: nat): (r: seq<string>)
    requires |sep| > 0 && n >= 1
    decreases n
    ensures 1 <= |r| <= n
  {
    if n == 1 then [s]
    else
      var i := Index(s, sep);
      if i < 0 then [s]
      else [s[..i]] + SplitN(s[i + |sep|..], sep, n - 1)
  }

  /** SplitN cut at the first separator. */
  lemma SplitNCut(s: string, sep: string, n: nat)
    requires |sep| > 0 && n >= 2 && Index(s, sep) >= 0
    ensures var i := Index(s, sep);
            SplitN(s, sep, n) == [s[..i]] + SplitN(s[i + |sep|..], sep, n - 1)
  {
  }

  /** The pieces SplitN makes join back to s. */
  lemma {:induction false} SplitNJoin(s: string, sep: string, n: nat)
    requires |sep| > 0 && n >= 1
    decreases n
    ensures Join(SplitN(s, sep, n), sep) == s
  {
    if n > 1 && Index(s, sep) >= 0 {
      var i := Index(s, sep);
      var rest := SplitN(s[i + |sep|..], sep, n - 1);
      SplitNJoin(s[i + |sep|..], sep, n - 1);
      SplitNCut(s, sep, n);
      JoinCons(s[..i], sep, rest);
      SplitAround(s, sep, i);
    }
  }

  /** Joining one more piece in front puts a separator after it. */
  lemma JoinCons(head: string, sep: string, rest: seq<string>)
    requires rest != []
    ensures Join([head] + rest, sep) == head + sep + Join(rest, sep)
  {
    assert ([head] + rest)[1..] == rest;
  }

  /** A string is what comes before an occurrence of sep, sep, and what
      comes after it. */
  lemma SplitAround(s: string, sep: string, i: nat)
    requires OccursAt(s, sep, i)
    ensures s == s[..i] + sep + s[i + |sep|..]
  {
  }

  /** For a one-byte separator, containment is plain membership. */
  lemma ContainsChar(s: string, c: char)
    ensures Contains(s, [c]) <==> c in s
  {
    if c in s {
      var i :| 0 <= i < |s| && s[i] == c;
      assert OccursAt(s, [c], i);
    }
    if Contains(s, [c]) {
      var i: nat :| i <= |s| && OccursAt(s, [c], i);
      assert s[i] == s[i..i + 1][0];
    }
  }

  /** SplitN at the first separator: when the separator does not occur
      before the end of `head`, the first piece is exactly `head`. */
  lemma {:induction false} SplitFirst(head: string, sep: string, rest: string)
    requires |sep| > 0
    requires !Contains(head + sep[..|sep| - 1], sep)
    ensures SplitN(head + sep + rest, sep, 2) == [head, rest]
  {
    var s := head + sep + rest;
    assert OccursAt(s, sep, |head|) by {
      assert s[|head|..|head| + |sep|] == sep;
    }
    var i := Index(s, sep);
    assert i != -1;
    if i < |head| {
      var t := head + sep[..|sep| - 1];
      forall k | i <= k < i + |sep|
        ensures s[k] == t[k]
      {
        if k >= |head| {
          assert s[k] == sep[k - |head|];
        }
      }
      assert s[i..i + |sep|] == t[i..i + |sep|];
      assert OccursAt(t, sep, i);
      assert false;
    }
    assert i == |head|;
    assert s[..i] == head;
    assert s[i + |sep|..] == rest;
  }

  /** SplitN with a single-byte separator that does not occur in s yields s
      alone. */
  lemma SplitAbsent(s: string, c: char, n: nat)
    requires n >= 1 && c !in s
    ensures SplitN(s, [c], n) == [s]
  {
    ContainsChar(s, c);
  }
}
