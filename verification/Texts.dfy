/** The few functions of Go's strings package that markers and paths need. */
module Texts {
  import opened Documents

  predicate OccursAt(s: string, t: string, i: int) {
    0 <= i <= |s| - |t| && s[i..i + |t|] == t
  }

  predicate Contains(s: string, t: string) {
    exists i | 0 <= i <= |s| - |t| :: OccursAt(s, t, i)
  }

  /** The first place of `t` at or after `i`, or -1. */
  function IndexFrom(s: string, t: string, i: nat): (place: int)
    ensures place >= 0 ==> i <= place && OccursAt(s, t, place)
    decreases |s| - i
  {
    if i + |t| > |s| then -1 else if OccursAt(s, t, i) then i else IndexFrom(s, t, i + 1)
  }

  function Split(s: string, separator: char): (parts: seq<string>)
    ensures |parts| >= 1
  {
    if s == "" then [""]
    else
      var rest := Split(s[1..], separator);
      if s[0] == separator then [""] + rest else [[s[0]] + rest[0]] + rest[1..]
  }

  /** Without the slashes at both ends. */
  function TrimSlashes(s: string): string
    decreases |s|
  {
    if s == "" then ""
    else if s[0] == '/' then TrimSlashes(s[1..])
    else if s[|s| - 1] == '/' then TrimSlashes(s[..|s| - 1])
    else s
  }

  predicate LowerAlphanumeric(c: char) { 'a' <= c <= 'z' || '0' <= c <= '9' }

  /** `keyPattern`: a lower-case letter or digit, then at most 62 of those or dashes. */
  predicate IsKey(s: string) {
    && 1 <= |s| <= 63 && LowerAlphanumeric(s[0])
    && forall i | 0 < i < |s| :: LowerAlphanumeric(s[i]) || s[i] == '-'
  }

  // ---------------------------------------------------------------- what they mean

  lemma ContainsMeans(s: string, t: string)
    ensures Contains(s, t) <==> exists a: string, b: string :: s == a + t + b
  {
    if Contains(s, t) {
      var i :| 0 <= i <= |s| - |t| && OccursAt(s, t, i);
      assert s == s[..i] + t + s[i + |t|..];
    }
    if a: string, b: string :| s == a + t + b {
      assert s[|a|..|a| + |t|] == t && OccursAt(s, t, |a|);
    }
  }

  /** The place found is the first one, and none is found only if there is none. */
  lemma {:induction false} IndexIsFirst(s: string, t: string, i: nat)
    ensures forall k | i <= k && (IndexFrom(s, t, i) < 0 || k < IndexFrom(s, t, i)) :: !OccursAt(s, t, k)
    decreases |s| - i
  {
    if i + |t| <= |s| && !OccursAt(s, t, i) {
      IndexIsFirst(s, t, i + 1);
    }
  }

  /** Splitting undoes joining: a text without separator is one part, and a separator ends the first part. */
  lemma {:induction false} SplitUndoesJoin(first: string, separator: char, rest: string)
    requires separator !in first
    ensures Split(first, separator) == [first]
    ensures Split(first + [separator] + rest, separator) == [first] + Split(rest, separator)
  {
    var whole := first + [separator] + rest;
    if first == "" {
      assert whole[0] == separator && whole[1..] == rest;
    } else {
      assert whole[0] == first[0] && whole[1..] == first[1..] + [separator] + rest;
      SplitUndoesJoin(first[1..], separator, rest);
      assert [first[0]] + first[1..] == first;
    }
  }

  lemma KeyMeans(s: string)
    ensures IsKey(s) <==>
      1 <= |s| <= 63 && s[0] != '-' && forall c | c in s :: 'a' <= c <= 'z' || '0' <= c <= '9' || c == '-'
  {
    if s != "" && s[0] != '-' && forall c | c in s :: 'a' <= c <= 'z' || '0' <= c <= '9' || c == '-' {
      assert forall i | 0 <= i < |s| :: s[i] in s;
    }
  }

  /** Slashes go at both ends, and nothing else does. */
  lemma {:induction false} TrimSlashesMeans(s: string) returns (i: nat, j: nat)
    ensures i <= j <= |s| && TrimSlashes(s) == s[i..j]
    ensures forall k | 0 <= k < i || j <= k < |s| :: s[k] == '/'
    ensures i < j ==> s[i] != '/' && s[j - 1] != '/'
    decreases |s|
  {
    if s == "" {
      i, j := 0, 0;
    } else if s[0] == '/' {
      i, j := TrimSlashesMeans(s[1..]);
      assert s[1..][i..j] == s[i + 1..j + 1] && forall k | 0 < k < |s| :: s[k] == s[1..][k - 1];
      i, j := i + 1, j + 1;
    } else if s[|s| - 1] == '/' {
      i, j := TrimSlashesMeans(s[..|s| - 1]);
      assert s[..|s| - 1][i..j] == s[i..j] && forall k | 0 <= k < |s| - 1 :: s[k] == s[..|s| - 1][k];
    } else {
      i, j := 0, |s|;
    }
  }
}
