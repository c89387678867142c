/** The string operations of the Go library that the modelled code calls. Letter case is ASCII. */
module Text {

  function Lower(c: char): char {
    if 'A' <= c <= 'Z' then c - 'A' + 'a' else c
  }

  /** `strings.ToLower`. */
  function ToLower(s: string): (r: string)
    ensures |r| == |s|
    ensures forall i :: 0 <= i < |s| ==> r[i] == Lower(s[i])
  {
    seq(|s|, i requires 0 <= i < |s| => Lower(s[i]))
  }

  /** `strings.EqualFold`. */
  predicate EqualFold(a: string, b: string) {
    ToLower(a) == ToLower(b)
  }

  predicate HasPrefix(s: string, prefix: string) {
    prefix <= s
  }

  predicate HasSuffix(s: string, suffix: string) {
    |s| >= |suffix| && s[|s| - |suffix|..] == suffix
  }

  function TrimPrefix(s: string, prefix: string): string {
    if HasPrefix(s, prefix) then s[|prefix|..] else s
  }

  /** `strings.TrimLeft`, `TrimRight` and `Trim` with a one-character cutset. */
  function TrimLeft(s: string, c: char): string {
    if s != [] && s[0] == c then TrimLeft(s[1..], c) else s
  }

  function TrimRight(s: string, c: char): string {
    if s != [] && s[|s| - 1] == c then TrimRight(s[..|s| - 1], c) else s
  }

  function Trim(s: string, c: char): string {
    TrimRight(TrimLeft(s, c), c)
  }

  /** `strings.Split` on one character. */
  function Split(s: string, c: char): (parts: seq<string>)
    ensures |parts| > 0
  {
    if s == [] then [""]
    else if s[0] == c then [""] + Split(s[1..], c)
    else
      var rest := Split(s[1..], c);
      [[s[0]] + rest[0]] + rest[1..]
  }

  function Join(parts: seq<string>, c: char): string
    requires |parts| > 0
  {
    if |parts| == 1 then parts[0] else parts[0] + [c] + Join(parts[1..], c)
  }

  ghost predicate AllFree(parts: seq<string>, c: char) {
    forall i :: 0 <= i < |parts| ==> c !in parts[i]
  }

  lemma {:induction false} SplitIsFree(s: string, c: char)
    ensures AllFree(Split(s, c), c)
  {
    if s != [] {
      SplitIsFree(s[1..], c);
    }
  }

  lemma {:induction false} JoinSplit(s: string, c: char)
    ensures Join(Split(s, c), c) == s
  {
    if s != [] {
      var rest := Split(s[1..], c);
      JoinSplit(s[1..], c);
      if s[0] == c {
        assert Split(s, c)[1..] == rest;
      } else if |rest| > 1 {
        assert Split(s, c)[1..] == rest[1..];
      }
    }
  }

  lemma {:induction false} SplitOfFree(s: string, c: char)
    requires c !in s
    ensures Split(s, c) == [s]
  {
    if s != [] {
      SplitOfFree(s[1..], c);
      assert s[0] in s;
      assert [s[0]] + s[1..] == s;
    }
  }

  lemma {:induction false} SplitAt(a: string, c: char, b: string)
    requires c !in a
    ensures Split(a + [c] + b, c) == [a] + Split(b, c)
  {
    var s := a + [c] + b;
    if a == [] {
      assert s[1..] == b;
    } else {
      assert s[1..] == a[1..] + [c] + b;
      SplitAt(a[1..], c, b);
      assert a[0] in a && s[0] == a[0];
      assert [a[0]] + a[1..] == a;
    }
  }

  /** The first part of a string is what stands before its first separator. */
  lemma FirstPartExactly(part: string, c: char, s: string)
    requires c !in part
    ensures Split(s, c)[0] == part <==> s == part || part + [c] <= s
  {
    if s == part {
      SplitOfFree(part, c);
    } else if part + [c] <= s {
      assert s == part + [c] + s[|part| + 1..];
      SplitAt(part, c, s[|part| + 1..]);
    } else {
      JoinSplit(s, c);
    }
  }

  /** Joining and splitting are inverse exactly when no part holds the separator. */
  lemma {:induction false} SplitJoinExactly(parts: seq<string>, c: char)
    requires |parts| > 0
    ensures Split(Join(parts, c), c) == parts <==> AllFree(parts, c)
  {
    SplitIsFree(Join(parts, c), c);
    if AllFree(parts, c) {
      if |parts| == 1 {
        SplitOfFree(parts[0], c);
      } else {
        SplitJoinExactly(parts[1..], c);
        SplitAt(parts[0], c, Join(parts[1..], c));
      }
    }
  }
}
