/** Progressive reading of a console log (internal/cicd/jenkins.go, `logs`): each poll starts one overlap before the
    offset of the reader, wherever that falls in a token. Which polls show exactly what the whole log shows? */
module JenkinsPolls {
  import opened JenkinsLog

  function Base(r: nat): (b: nat) { if r < OVERLAP then 0 else r - OVERLAP }

  /** One poll: the log has grown to `size`, the reader has seen `r` bytes of it. At most `PAYLOAD_LIMIT` bytes
      of the response are read; the next poll starts at `size`. */
  function Poll(log: Bytes, r: nat, size: nat): (text: Bytes)
    requires r <= size <= |log|
  {
    var available := log[Base(r)..size];
    Scan(if |available| > PAYLOAD_LIMIT then available[..PAYLOAD_LIMIT] else available, 0, Base(r), r)
  }

  /** A poll reads from 4 KiB before the offset of the reader, at most 2 MiB, and shows only what comes from that offset on. */
  lemma PollReads(log: Bytes, r: nat, size: nat)
    requires r <= size <= |log|
    ensures var low := if r < 4096 then 0 else r - 4096;
      var high := if size < low + 2 * 1024 * 1024 then size else low + 2 * 1024 * 1024;
      Poll(log, r, size) == Scan(log[low..high], 0, low, r)
  {
    var low := Base(r);
    if size > low + PAYLOAD_LIMIT {
      assert log[low..size][..PAYLOAD_LIMIT] == log[low..low + PAYLOAD_LIMIT];
    }
  }

  // ---------------------------------------------------------------- falling in step

  lemma {:induction false} PlainRun(p: Bytes, b: nat, e: nat)
    requires b <= e <= |p| && forall k | b <= k < e :: p[k] != ESC
    ensures Reaches(p, b, e)
    decreases e - b
  {
    if b < e {
      NoteBytes(p, b);
      PlainRun(p, b + 1, e);
    }
  }

  /** The search for a suffix may start anywhere before the one it finds. */
  lemma {:induction false} FindFrom(p: Bytes, i: nat, j: nat)
    requires i <= j && (FindSuffix(p, i) < 0 || j <= FindSuffix(p, i))
    ensures FindSuffix(p, j) == FindSuffix(p, i)
    decreases j - i
  {
    if i < j && i + 4 <= |p| {
      FindFrom(p, i + 1, j);
    }
  }

  /** A control sequence has one final byte, its last, unless the log ends first. */
  lemma {:induction false} SequenceBody(p: Bytes, i: nat)
    requires i <= |p|
    ensures var end := SequenceEnd(p, i);
      && (forall k | i <= k < end - 1 :: !Final(p[k]))
      && (end == |p| || (end > i && Final(p[end - 1])))
    decreases |p| - i
  {
    if i < |p| && !Final(p[i]) {
      SequenceBody(p, i + 1);
    }
  }

  lemma SuffixBytes(p: Bytes, x: nat)
    requires At(p, x, NOTE_SUFFIX)
    ensures x + 4 <= |p| && p[x] == ESC && p[x + 1] == BRACKET && p[x + 2] == 0x30 && p[x + 3] == 0x6d
  {
    var l := NOTE_SUFFIX;
    assert l[0] == ESC && l[1] == BRACKET && l[2] == 0x30 && l[3] == 0x6d;
    assert p[x + 0] == l[0] && p[x + 1] == l[1] && p[x + 2] == l[2] && p[x + 3] == l[3];
  }

  /** A note suffix read on its own is a control sequence. */
  lemma SuffixStep(p: Bytes, x: nat)
    requires At(p, x, NOTE_SUFFIX)
    ensures Step(p, x) == x + 4
  {
    SuffixBytes(p, x);
    NoteBytes(p, x);
    assert SequenceEnd(p, x + 2) == SequenceEnd(p, x + 3) == x + 4;
  }

  /** The suffix that closes a note cannot begin inside a prefix. */
  lemma SuffixNotInPrefix(p: Bytes, k: nat, x: nat)
    requires OpensNote(p, k) && At(p, x, NOTE_SUFFIX) && k <= x
    ensures k + 7 <= x
  {
    SuffixBytes(p, x);
    NoteBytes(p, k);
  }

  /** Whatever ESC bytes a closed note holds, every scanner that starts inside it comes by its end. */
  lemma {:induction false} InNote(p: Bytes, first: nat, x: nat, b: nat)
    requires FindSuffix(p, first) == x && At(p, x, NOTE_SUFFIX) && first <= b + 7 && b <= x + 4
    ensures Reaches(p, b, x + 4)
    decreases x + 4 - b
  {
    SuffixBytes(p, x);
    if b > x {
      PlainRun(p, b, x + 4);
    } else if b == x {
      SuffixStep(p, x);
      assert Reaches(p, x + 4, x + 4);
    } else {
      InNoteStep(p, first, x, b);
      InNote(p, first, x, Step(p, b));
    }
  }

  lemma InNoteStep(p: Bytes, first: nat, x: nat, b: nat)
    requires FindSuffix(p, first) == x && At(p, x, NOTE_SUFFIX) && first <= b + 7 && b < x
    ensures Step(p, b) != STOP && b < Step(p, b) <= x + 4
  {
    SuffixBytes(p, x);
    if OpensNote(p, b) {
      SuffixNotInPrefix(p, b, x);
      FindFrom(p, first, b + 7);
    } else if OpensSequence(p, b) {
      SequenceBody(p, b + 2);
      assert Final(p[x + 1]);
    }
  }

  lemma NoteResyncs(p: Bytes, s: nat, b: nat)
    requires OpensNote(p, s) && Step(p, s) != STOP && s < b <= Step(p, s)
    ensures Reaches(p, b, Step(p, s))
  {
    FoundSuffix(p, s + 7);
    InNote(p, s + 7, FindSuffix(p, s + 7), b);
  }

  /** The token is a control sequence, not a note. */
  predicate IsSequence(p: Bytes, s: nat)
    requires s < |p|
  {
    !OpensNote(p, s) && OpensSequence(p, s)
  }

  /** The final byte of the sequence is the bracket of an ESC [ in it. */
  predicate EndsOpening(p: Bytes, s: nat)
    requires s < |p|
  {
    IsSequence(p, s) && Step(p, s) >= s + 4 && p[Step(p, s) - 2] == ESC && p[Step(p, s) - 1] == BRACKET
  }

  /** A scanner that starts at `b` inside the sequence runs over its end. */
  predicate Overruns(p: Bytes, s: nat, b: nat)
    requires s < |p|
  {
    EndsOpening(p, s) && b <= Step(p, s) - 2
  }

  /** Inside a control sequence every byte is plain, up to an ESC [ at its end. */
  lemma {:induction false} PlainInSequence(p: Bytes, s: nat, b: nat, c: nat)
    requires s < |p| && IsSequence(p, s) && s < b <= c <= Step(p, s)
    requires Overruns(p, s, b) ==> c <= Step(p, s) - 2
    ensures Reaches(p, b, c)
    decreases c - b
  {
    if b < c {
      PlainByte(p, s, b);
      PlainInSequence(p, s, b + 1, c);
    }
  }

  lemma PlainByte(p: Bytes, s: nat, b: nat)
    requires s < |p| && IsSequence(p, s) && s < b < Step(p, s) && (EndsOpening(p, s) ==> b != Step(p, s) - 2)
    ensures Plain(p, b) && Step(p, b) == b + 1
  {
    SequenceBody(p, s + 2);
    NoteBytes(p, b);
  }

  lemma {:induction false} ReachesInWhole(p: Bytes, n: nat, i: nat, s: nat)
    requires n <= |p| && s + 7 <= n && i <= n && Reaches(p[..n], i, s)
    ensures Reaches(p, i, s)
    decreases n - i
  {
    if i != s {
      var q := p[..n];
      ReachesBound(q, Step(q, i), s);
      assert Step(q, i) <= s;
      AtPrefix(p, n, i, NOTE_PREFIX);
      FindPrefix(p, n, i + 7);
      if !OpensNote(p, i) && OpensSequence(q, i) {
        SequencePrefix(p, n, i + 2);
      }
      assert Step(p, i) == Step(q, i);
      ReachesInWhole(p, n, Step(q, i), s);
    }
  }

  // ---------------------------------------------------------------- what was read decides about what comes

  /** The scanner that starts at `i` ends in a note that is not closed. */
  predicate Stops(q: Bytes, i: nat)
    decreases |q| - i
  {
    i < |q| && (Step(q, i) == STOP || Stops(q, Step(q, i)))
  }

  /** So far this is a control sequence, but it may still turn out to open a note. */
  predicate Undecided(q: Bytes, s: nat)
    requires s < |q|
  {
    s + 7 > |q| && q[s..] <= NOTE_PREFIX
  }

  /** The token at `s` has ended: a note with its suffix, a control sequence with its final byte. */
  predicate HasEnded(q: Bytes, s: nat)
    requires s < |q|
  {
    if OpensNote(q, s) then Step(q, s) != STOP
    else OpensSequence(q, s) ==> !Undecided(q, s) && Step(q, s) > s + 2 && Final(q[Step(q, s) - 1])
  }

  /** A scanner at the token at `s` and one that starts at `b` inside it agree on everything behind `q`. If a note is still
      open, both have to be in one. If a control sequence ends in ESC [, the second scanner takes that for a token of its
      own, and the first one starts inside that. */
  predicate InStep(q: Bytes, s: nat, b: nat)
    requires s < b <= |q| && !Plain(q, s)
    decreases |q| - s
  {
    if !HasEnded(q, s) then OpensNote(q, s) && Stops(q, b)
    else Overruns(q, s, b) ==> InStep(q, Step(q, s) - 2, Step(q, s))
  }

  lemma {:induction false} StopsAt(q: Bytes, i: nat) returns (k: nat)
    requires Stops(q, i)
    ensures i <= k && Reaches(q, i, k) && OpensNote(q, k) && FindSuffix(q, k + 7) < 0
    decreases |q| - i
  {
    if Step(q, i) == STOP {
      k := i;
    } else {
      k := StopsAt(q, Step(q, i));
    }
  }

  /** A token that has ended stays as it is, whatever comes. */
  lemma EndedStays(p: Bytes, r: nat, s: nat)
    requires s < r <= |p| && !Plain(p[..r], s) && HasEnded(p[..r], s)
    ensures Step(p, s) == Step(p[..r], s) && s < Step(p, s) <= r
    ensures OpensNote(p, s) == OpensNote(p[..r], s) && OpensSequence(p, s) == OpensSequence(p[..r], s)
  {
    var q := p[..r];
    AtPrefix(p, r, s, NOTE_PREFIX);
    if OpensNote(q, s) {
      FindPrefix(p, r, s + 7);
    } else {
      StaysSequence(p, r, s);
      SequencePrefix(p, r, s + 2);
      SequenceBody(p, s + 2);
    }
  }

  /** What is decided to be a control sequence is none of the notes. */
  lemma StaysSequence(p: Bytes, r: nat, s: nat)
    requires s < r <= |p| && IsSequence(p[..r], s) && !Undecided(p[..r], s)
    ensures IsSequence(p, s)
  {
    AtPrefix(p, r, s, NOTE_PREFIX);
    if r < s + 7 <= |p| {
      assert p[..r][s..] == p[s..s + 7][..r - s];
    }
  }

  /** Nothing before `e` is wanted, and the token at `s` shows nothing. */
  lemma HiddenToken(p: Bytes, s: nat, wanted: nat)
    requires s < |p| && !Plain(p, s)
    ensures Scan(p, s, 0, wanted) == if Step(p, s) == STOP then [] else Scan(p, Step(p, s), 0, wanted)
  {
  }

  lemma SuffixBehindPrefix(p: Bytes, r: nat, k: nat, f: nat)
    requires OpensNote(p, k) && At(p, f, NOTE_SUFFIX) && k + 7 <= r < f + 4
    ensures k + 7 <= f
  {
    SuffixNotInPrefix(p, k, f);
  }

  /** Two notes that are open at `r` close together or not at all. */
  lemma OpenNotesCloseTogether(p: Bytes, r: nat, s: nat, k: nat)
    requires s <= k && k + 7 <= r <= |p|
    requires OpensNote(p, s) && OpensNote(p, k) && FindSuffix(p[..r], s + 7) < 0
    ensures Step(p, s) == Step(p, k)
  {
    FindPrefix(p, r, s + 7);
    FoundSuffix(p, s + 7);
    if FindSuffix(p, s + 7) >= 0 {
      SuffixBehindPrefix(p, r, k, FindSuffix(p, s + 7));
    }
    FindFrom(p, s + 7, k + 7);
  }

  lemma OpenNotesAgree(p: Bytes, r: nat, s: nat, b: nat)
    requires s < b <= r <= |p| && OpensNote(p[..r], s) && Step(p[..r], s) == STOP && Stops(p[..r], b)
    ensures Scan(p, s, 0, r) == Scan(p, b, 0, r)
  {
    var q := p[..r];
    var k := StopsAt(q, b);
    AtPrefix(p, r, s, NOTE_PREFIX);
    AtPrefix(p, r, k, NOTE_PREFIX);
    ReachesInWhole(p, r, b, k);
    SkipTo(p, b, k, r);
    OpenNotesCloseTogether(p, r, s, k);
    HiddenToken(p, s, r);
    HiddenToken(p, k, r);
  }

  lemma EndedAgree(p: Bytes, r: nat, s: nat, b: nat)
    requires r <= |p| && s < b <= r && !Plain(p[..r], s) && HasEnded(p[..r], s) && b <= Step(p[..r], s)
    requires !Overruns(p[..r], s, b)
    ensures Scan(p, s, 0, r) == Scan(p, b, 0, r)
  {
    EndedStays(p, r, s);
    HiddenToken(p, s, r);
    if OpensNote(p, s) {
      NoteResyncs(p, s, b);
    } else {
      PlainInSequence(p, s, b, Step(p, s));
    }
    SkipTo(p, b, Step(p, s), r);
  }

  lemma OverrunStays(p: Bytes, r: nat, s: nat, b: nat)
    requires s < b <= r <= |p| && HasEnded(p[..r], s) && Overruns(p[..r], s, b)
    ensures Overruns(p, s, b) && Step(p, s) == Step(p[..r], s) && Step(p, s) <= r
  {
    EndedStays(p, r, s);
    var e := Step(p, s);
    assert p[..r][e - 2] == p[e - 2] && p[..r][e - 1] == p[e - 1];
  }

  /** Behind an overrun the two scanners are a token start and a place inside that token again. */
  lemma OverrunFrom(p: Bytes, r: nat, s: nat, b: nat)
    requires s < b <= r <= |p| && Overruns(p, s, b) && Step(p, s) <= r
    ensures s < Step(p, s) - 2
    ensures Scan(p, s, 0, r) == Scan(p, Step(p, s), 0, r) && Scan(p, b, 0, r) == Scan(p, Step(p, s) - 2, 0, r)
  {
    HiddenToken(p, s, r);
    PlainInSequence(p, s, b, Step(p, s) - 2);
    SkipTo(p, b, Step(p, s) - 2, r);
  }

  lemma {:induction false} InStepAgrees(p: Bytes, r: nat, s: nat, b: nat)
    requires r <= |p| && s < b <= r && !Plain(p[..r], s) && InStep(p[..r], s, b)
    requires HasEnded(p[..r], s) ==> b <= Step(p[..r], s)
    ensures Scan(p, s, 0, r) == Scan(p, b, 0, r)
    decreases r - s
  {
    var q := p[..r];
    if !HasEnded(q, s) {
      OpenNotesAgree(p, r, s, b);
    } else if Overruns(q, s, b) {
      OverrunStays(p, r, s, b);
      OverrunFrom(p, r, s, b);
      OpeningAtEnd(q, s);
      InStepAgrees(p, r, Step(q, s) - 2, Step(q, s));
    } else {
      EndedAgree(p, r, s, b);
    }
  }

  /** The ESC [ at the end of a control sequence opens a token that goes on behind it. */
  lemma OpeningAtEnd(q: Bytes, s: nat)
    requires s < |q| && EndsOpening(q, s)
    ensures var e := Step(q, s); s < e - 2 && !Plain(q, e - 2) && (Step(q, e - 2) == STOP || e <= Step(q, e - 2))
  {
  }

  // ---------------------------------------------------------------- a continuation that tells the scanners apart

  /** Ends a control sequence, closes no note, and shows a byte to whoever is in neither. */
  const PROBE: Bytes := [0x31, 0x6d, 0x30]

  lemma ProbeBytes(q: Bytes)
    ensures var p := q + PROBE; |p| == |q| + 3 && p[..|q|] == q && p[|q|] == 0x31 && p[|q| + 1] == 0x6d && p[|q| + 2] == 0x30
  {
  }

  /** No token that is not one in `q` begins with the probe behind it. */
  lemma ProbeOpensNothing(q: Bytes, i: nat)
    requires i < |q| + 3
    ensures OpensNote(q + PROBE, i) ==> OpensNote(q, i)
    ensures OpensSequence(q + PROBE, i) ==> i < |q| && OpensSequence(q, i)
    ensures At(q + PROBE, i, NOTE_SUFFIX) ==> At(q, i, NOTE_SUFFIX)
  {
    var p := q + PROBE;
    ProbeBytes(q);
    AtPrefix(p, |q|, i, NOTE_PREFIX);
    AtPrefix(p, |q|, i, NOTE_SUFFIX);
    NoteBytes(p, i);
    if At(p, i, NOTE_SUFFIX) {
      SuffixBytes(p, i);
    }
  }

  /** A note that is open stays open. */
  lemma {:induction false} ProbeClosesNothing(q: Bytes, i: nat)
    requires FindSuffix(q, i) < 0
    ensures FindSuffix(q + PROBE, i) < 0
    decreases |q| + 3 - i
  {
    if i + 4 <= |q + PROBE| {
      ProbeOpensNothing(q, i);
      ProbeClosesNothing(q, i + 1);
    }
  }

  lemma ProbeStep(q: Bytes, i: nat)
    requires i < |q| && Step(q, i) != STOP
    ensures Step(q + PROBE, i) == Step(q, i) || (Step(q, i) == |q| && Step(q + PROBE, i) == |q| + 2)
  {
    var p := q + PROBE;
    ProbeBytes(q);
    ProbeOpensNothing(q, i);
    AtPrefix(p, |q|, i, NOTE_PREFIX);
    if OpensNote(q, i) {
      FindPrefix(p, |q|, i + 7);
    } else if OpensSequence(q, i) {
      SequencePrefix(p, |q|, i + 2);
      ProbeEndsSequence(q, i + 2);
    }
  }

  lemma {:induction false} ProbeEndsSequence(q: Bytes, i: nat)
    requires i <= |q|
    ensures SequenceEnd(q + PROBE, i) == if SequenceEnd(q, i) < |q| || (SequenceEnd(q, i) > i && Final(q[|q| - 1])) then SequenceEnd(q, i) else |q| + 2
    decreases |q| - i
  {
    ProbeBytes(q);
    if i < |q| && !Final(q[i]) {
      ProbeEndsSequence(q, i + 1);
    } else if i == |q| {
      assert SequenceEnd(q + PROBE, i + 1) == i + 2;
    }
  }

  /** A scanner that is in no open note comes by the last byte of the probe, and shows it. */
  lemma {:induction false} ProbeReached(q: Bytes, i: nat)
    requires i <= |q| && !Stops(q, i)
    ensures Reaches(q + PROBE, i, |q| + 2)
    decreases |q| - i
  {
    ProbeBytes(q);
    if i == |q| {
      PlainRun(q + PROBE, i, i + 2);
    } else {
      ProbeStep(q, i);
      if Step(q + PROBE, i) == Step(q, i) {
        ProbeReached(q, Step(q, i));
      }
    }
  }

  lemma ProbeShows(q: Bytes, i: nat)
    requires i <= |q| && !Stops(q, i)
    ensures Scan(q + PROBE, i, 0, |q|) != []
  {
    var p, r := q + PROBE, |q|;
    ProbeBytes(q);
    ProbeReached(q, i);
    LastShows(p, i, r);
  }

  /** A scanner that comes by a wanted last byte shows it. */
  lemma {:induction false} LastShows(p: Bytes, i: nat, wanted: nat)
    requires |p| > 0 && Reaches(p, i, |p| - 1) && wanted < |p| && p[|p| - 1] != ESC && Printable(p[|p| - 1])
    ensures Scan(p, i, 0, wanted) != []
    decreases |p| - i
  {
    if i == |p| - 1 {
      NoteBytes(p, i);
      assert Shows(p, i, 0, wanted);
    } else {
      LastShows(p, Step(p, i), wanted);
    }
  }

  /** The rest of a note prefix, and a byte that only a scanner outside the note shows. */
  function Completion(q: Bytes, s: nat): Bytes
    requires s < |q| <= s + 7
  {
    NOTE_PREFIX[|q| - s..] + [0x30]
  }

  lemma UndecidedTells(q: Bytes, s: nat, b: nat)
    requires s < b <= |q| && Undecided(q, s)
    ensures Scan(q + Completion(q, s), s, 0, |q|) != Scan(q + Completion(q, s), b, 0, |q|)
  {
    var p := q + Completion(q, s);
    assert p[s..s + 7] == q[s..] + NOTE_PREFIX[|q| - s..];
    NoteBytes(p, s);
    assert |p| == s + 8 && FindSuffix(p, s + 7) < 0;
    HiddenToken(p, s, |q|);
    PlainRun(p, b, s + 7);
    LastShows(p, b, |q|);
  }

  lemma OpenNoteTells(q: Bytes, s: nat, b: nat)
    requires s < b <= |q| && OpensNote(q, s) && Step(q, s) == STOP && !Stops(q, b)
    ensures Scan(q + PROBE, s, 0, |q|) != Scan(q + PROBE, b, 0, |q|)
  {
    var p := q + PROBE;
    ProbeBytes(q);
    AtPrefix(p, |q|, s, NOTE_PREFIX);
    ProbeClosesNothing(q, s + 7);
    HiddenToken(p, s, |q|);
    ProbeShows(q, b);
  }

  lemma ProbeInSequence(q: Bytes, s: nat)
    requires s < |q| && IsSequence(q, s) && !Undecided(q, s) && !HasEnded(q, s)
    ensures IsSequence(q + PROBE, s) && Step(q + PROBE, s) == |q| + 2 && !EndsOpening(q + PROBE, s)
  {
    ProbeBytes(q);
    StaysSequence(q + PROBE, |q|, s);
    SequenceBody(q, s + 2);
    ProbeEndsSequence(q, s + 2);
  }

  lemma ProbeShown(q: Bytes)
    ensures var p, r := q + PROBE, |q|;
      Scan(p, r, 0, r) == [0x31] + Scan(p, r + 1, 0, r) && Scan(p, r + 2, 0, r) == [0x30]
  {
    ProbeBytes(q);
    var p, r := q + PROBE, |q|;
    NoteBytes(p, r);
    NoteBytes(p, r + 2);
    assert Scan(p, r + 3, 0, r) == [] && Scan(p, r + 2, 0, r) == [0x30] + Scan(p, r + 3, 0, r);
  }

  lemma OpenSequenceTells(q: Bytes, s: nat, b: nat)
    requires s < b <= |q| && IsSequence(q, s) && !Undecided(q, s) && !HasEnded(q, s)
    ensures Scan(q + PROBE, s, 0, |q|) != Scan(q + PROBE, b, 0, |q|)
  {
    ProbeInSequence(q, s);
    HiddenToken(q + PROBE, s, |q|);
    PlainInSequence(q + PROBE, s, b, |q|);
    SkipTo(q + PROBE, b, |q|, |q|);
    ProbeShown(q);
  }

  lemma OverrunTells(q: Bytes, t: Bytes, s: nat, b: nat)
    requires s < b <= |q| && HasEnded(q, s) && Overruns(q, s, b)
    requires Scan(q + t, Step(q, s) - 2, 0, |q|) != Scan(q + t, Step(q, s), 0, |q|)
    ensures Scan(q + t, s, 0, |q|) != Scan(q + t, b, 0, |q|)
  {
    var p := q + t;
    assert p[..|q|] == q;
    OverrunStays(p, |q|, s, b);
    OverrunFrom(p, |q|, s, b);
  }

  /** Scanners that are out of step show some continuation differently. */
  lemma {:induction false} OutOfStepTells(q: Bytes, s: nat, b: nat) returns (t: Bytes)
    requires s < b <= |q| && !Plain(q, s) && !InStep(q, s, b)
    requires HasEnded(q, s) ==> b <= Step(q, s)
    ensures |t| <= 8 && Scan(q + t, s, 0, |q|) != Scan(q + t, b, 0, |q|)
    decreases |q| - s
  {
    if HasEnded(q, s) {
      var e := Step(q, s);
      OpeningAtEnd(q, s);
      t := OutOfStepTells(q, e - 2, e);
      OverrunTells(q, t, s, b);
    } else if OpensNote(q, s) {
      t := PROBE;
      OpenNoteTells(q, s, b);
    } else if Undecided(q, s) {
      t := Completion(q, s);
      UndecidedTells(q, s, b);
    } else {
      t := PROBE;
      OpenSequenceTells(q, s, b);
    }
  }

  // ---------------------------------------------------------------- which polls are exact

  /** The scanner that starts one overlap before the end of `q` is in step with the one that reads all of it. */
  predicate ReadInStep(q: Bytes) {
    var b := Base(|q|);
    var s := TokenStart(q, 0, b);
    s < b ==> InStep(q, s, b)
  }

  /** Both texts, from the token over the start of the overlap. */
  lemma WholeTail(p: Bytes, b: nat)
    requires b <= |p|
    ensures p[b..|p|] == p[b..] && |p[b..]| == |p| - b
  {
  }

  lemma PollIsScan(p: Bytes, r: nat)
    requires r <= |p| && |p| - Base(r) <= PAYLOAD_LIMIT
    ensures Poll(p, r, |p|) == Scan(p, Base(r), 0, r)
  {
    WholeTail(p, Base(r));
    TailScans(p, Base(r), r);
  }

  lemma PollAgainstWhole(p: Bytes, r: nat)
    requires r <= |p| && |p| - Base(r) <= PAYLOAD_LIMIT
    ensures Poll(p, r, |p|) == Scan(p, Base(r), 0, r)
    ensures Emitted(p, r) == Scan(p, TokenStart(p[..r], 0, Base(r)), 0, r)
  {
    PollIsScan(p, r);
    EmittedFrom(p, r, TokenStart(p[..r], 0, Base(r)));
  }

  lemma EmittedFrom(p: Bytes, r: nat, s: nat)
    requires r <= |p| && s <= Base(r) && Reaches(p[..r], 0, s)
    ensures Emitted(p, r) == Scan(p, s, 0, r)
  {
    if s > 0 {
      ReachesInWhole(p, r, 0, s);
    }
    SkipTo(p, 0, s, r);
  }

  lemma ContinuationIsExact(p: Bytes, r: nat)
    requires r <= |p| && ReadInStep(p[..r]) && |p| - Base(r) <= PAYLOAD_LIMIT
    ensures Poll(p, r, |p|) == Emitted(p, r)
  {
    var b := Base(r);
    var s := TokenStart(p[..r], 0, b);
    PollAgainstWhole(p, r);
    if s < b {
      InStepAgrees(p, r, s, b);
    }
  }

  lemma SomeContinuationIsNot(q: Bytes) returns (t: Bytes)
    requires !ReadInStep(q)
    ensures |q + t| - Base(|q|) <= PAYLOAD_LIMIT && Poll(q + t, |q|, |q + t|) != Emitted(q + t, |q|)
  {
    t := OutOfStepTells(q, TokenStart(q, 0, Base(|q|)), Base(|q|));
    assert (q + t)[..|q|] == q;
    PollAgainstWhole(q + t, |q|);
  }

  /** A poll at the offset `|q|` shows precisely what the whole log emits from there on, however the log goes on, exactly
      if the scanners are in step when it starts. Whether they are can be told from what was read before. */
  lemma EveryContinuationIsExact(q: Bytes)
    ensures ReadInStep(q) <==>
      forall t: Bytes | |q + t| - Base(|q|) <= PAYLOAD_LIMIT :: Poll(q + t, |q|, |q + t|) == Emitted(q + t, |q|)
  {
    if ReadInStep(q) {
      forall t: Bytes | |q + t| - Base(|q|) <= PAYLOAD_LIMIT ensures Poll(q + t, |q|, |q + t|) == Emitted(q + t, |q|) {
        assert (q + t)[..|q|] == q;
        ContinuationIsExact(q + t, |q|);
      }
    } else {
      var t := SomeContinuationIsNot(q);
    }
  }

  /** A token over the start of the overlap that has ended, and does not end in ESC [, is enough. */
  lemma EndedIsInStep(q: Bytes)
    requires var s := TokenStart(q, 0, Base(|q|)); s < Base(|q|) ==> HasEnded(q, s) && !Overruns(q, s, Base(|q|))
    ensures ReadInStep(q)
  {
  }

  /** Then the two scanners meet at or before the offset. */
  lemma OverlapMeets(p: Bytes, r: nat)
    requires r <= |p|
    requires var s := TokenStart(p, 0, Base(r)); s < Base(r) ==> Step(p, s) != STOP && Step(p, s) <= r && !Overruns(p, s, Base(r))
    ensures exists c: nat :: Base(r) <= c <= r && Boundary(p, c) && Reaches(p, Base(r), c)
  {
    var b := Base(r);
    var s := TokenStart(p, 0, b);
    if s == b {
      assert Boundary(p, b) && Reaches(p, b, b);
    } else {
      if OpensNote(p, s) {
        NoteResyncs(p, s, b);
      } else {
        PlainInSequence(p, s, b, Step(p, s));
      }
      ReachesStep(p, 0, s);
      assert b <= Step(p, s) <= r;
    }
  }

  /** The comment of the source, made exact: a poll shows precisely what the log emits from its offset on, even from the
      middle of a note, if the scanners were in step there. */
  lemma PollIsExact(log: Bytes, r: nat, size: nat)
    requires r <= size <= |log| && ReadInStep(log[..r]) && size - Base(r) <= PAYLOAD_LIMIT
    ensures Poll(log, r, size) == Emitted(log[..size], r)
  {
    assert log[..size][..r] == log[..r];
    ContinuationIsExact(log[..size], r);
    assert log[..size][Base(r)..size] == log[Base(r)..size];
  }

  // ---------------------------------------------------------------- what one poll of a given log shows

  /** A scanner from `b` on shows a byte between `r` and `e`. */
  predicate ShowsAt(p: Bytes, b: nat, k: nat) {
    k < |p| && Reaches(p, b, k) && Plain(p, k) && Printable(p[k])
  }

  /** Until both meet at `e`, the scanner from `i` adds what it shows from `r` on. */
  lemma {:induction false} ShowsMore(p: Bytes, i: nat, e: nat, r: nat)
    requires i <= e <= |p| && Reaches(p, i, e)
    ensures |Scan(p, i, 0, r)| >= |Scan(p, e, 0, r)|
    ensures Scan(p, i, 0, r) == Scan(p, e, 0, r) <==> forall k | r <= k < e :: !ShowsAt(p, i, k)
    decreases e - i
  {
    if i < e {
      var j := Step(p, i);
      ReachesBound(p, j, e);
      ShowsMore(p, j, e, r);
      forall k | r <= k < e ensures ShowsAt(p, i, k) <==> (k == i && Plain(p, k) && Printable(p[k])) || ShowsAt(p, j, k) {
        ShownHereOrLater(p, i, k);
      }
      if Shows(p, i, 0, r) {
        assert ShowsAt(p, i, i);
      }
    }
  }

  lemma ShownHereOrLater(p: Bytes, i: nat, k: nat)
    requires i < |p| && Step(p, i) != STOP
    ensures ShowsAt(p, i, k) <==> (k == i && Plain(p, k) && Printable(p[k])) || ShowsAt(p, Step(p, i), k)
  {
  }

  lemma {:induction false} ShowsNothing(p: Bytes, i: nat, r: nat)
    requires i <= |p|
    ensures Scan(p, i, 0, r) == [] <==> forall k | r <= k < |p| :: !ShowsAt(p, i, k)
    decreases |p| - i
  {
    if i < |p| && Step(p, i) != STOP {
      var j := Step(p, i);
      ShowsNothing(p, j, r);
      forall k | r <= k < |p| ensures ShowsAt(p, i, k) <==> (k == i && Plain(p, k) && Printable(p[k])) || ShowsAt(p, j, k) {
        ShownHereOrLater(p, i, k);
      }
      if Shows(p, i, 0, r) {
        assert ShowsAt(p, i, i);
      }
    }
  }

  /** Where a token ends, an open note reaching to the end of the log. */
  function Span(p: Bytes, s: nat): (end: nat)
    requires s < |p|
  {
    if Step(p, s) == STOP then |p| else Step(p, s)
  }

  lemma Shifted(p: Bytes, r: nat)
    requires r <= |p| && |p| - Base(r) <= PAYLOAD_LIMIT
    ensures Poll(p, r, |p|) == Scan(p, Base(r), 0, r)
    ensures Emitted(p, r) == Scan(p, TokenStart(p, 0, Base(r)), 0, r)
  {
    PollIsScan(p, r);
    SkipTo(p, 0, TokenStart(p, 0, Base(r)), r);
  }

  /** A poll is exact exactly if no token is cut at the start of the overlap, or a scanner that starts there shows nothing
      from `r` to the end of that token. (A control sequence that ends in ESC [ puts it out of step for longer than that.) */
  lemma PollIsExactExactly(p: Bytes, r: nat)
    requires r <= |p| && |p| - Base(r) <= PAYLOAD_LIMIT
    requires var s := TokenStart(p, 0, Base(r)); s < Base(r) ==> !Overruns(p, s, Base(r))
    ensures var b := Base(r); var s := TokenStart(p, 0, b);
      Poll(p, r, |p|) == Emitted(p, r) <==> s == b || forall k | r <= k < Span(p, s) :: !ShowsAt(p, b, k)
  {
    var b := Base(r);
    var s := TokenStart(p, 0, b);
    Shifted(p, r);
    if s < b {
      HiddenToken(p, s, r);
      if Step(p, s) == STOP {
        ShowsNothing(p, b, r);
      } else {
        if OpensNote(p, s) {
          NoteResyncs(p, s, b);
        } else {
          PlainInSequence(p, s, b, Step(p, s));
        }
        ShowsMore(p, b, Step(p, s), r);
      }
    }
  }

  /** Where the text of a token ends, its suffix not counted. */
  function TextEnd(p: Bytes, s: nat): (end: int)
    requires s < |p|
  {
    if Step(p, s) == STOP then |p| else if OpensNote(p, s) then Step(p, s) - 4 else Step(p, s)
  }

  /** A token without foreign ESC shows to that scanner what of its text is printable. */
  lemma TextIsShown(p: Bytes, s: nat, b: nat, k: nat)
    requires s < |p| && s < b <= k < Span(p, s)
    requires forall i | b <= i < TextEnd(p, s) :: p[i] != ESC
    requires b <= TextEnd(p, s)
    ensures ShowsAt(p, b, k) <==> k < TextEnd(p, s) && Printable(p[k])
  {
    var end := TextEnd(p, s);
    if k < end {
      PlainRun(p, b, k);
      NoteBytes(p, k);
    } else {
      var e := Step(p, s);
      FoundSuffix(p, s + 7);
      PlainRun(p, b, e - 4);
      SuffixStep(p, e - 4);
      SuffixBytes(p, e - 4);
      if Reaches(p, b, k) {
        ReachesOnward(p, b, e - 4, k);
      }
    }
  }

  /** So the poll in the middle of a token without foreign ESC is exact exactly if no printable byte of its text lies at the
      offset or behind it. */
  lemma PollInTokenExactly(p: Bytes, r: nat)
    requires r <= |p| && |p| - Base(r) <= PAYLOAD_LIMIT
    requires TokenStart(p, 0, Base(r)) < Base(r)
    requires forall i | Base(r) <= i < TextEnd(p, TokenStart(p, 0, Base(r))) :: p[i] != ESC
    ensures Poll(p, r, |p|) == Emitted(p, r) <==>
      forall k | r <= k < TextEnd(p, TokenStart(p, 0, Base(r))) :: !Printable(p[k])
  {
    var b := Base(r);
    var s := TokenStart(p, 0, b);
    PollIsExactExactly(p, r);
    if r < Span(p, s) {
      assert b + 4 <= r;
      forall k | r <= k < Span(p, s) ensures ShowsAt(p, b, k) <==> k < TextEnd(p, s) && Printable(p[k]) {
        TextIsShown(p, s, b, k);
      }
    }
  }

  // ---------------------------------------------------------------- all polls together

  predicate Grows(sizes: seq<nat>, log: Bytes) {
    && |sizes| > 0 && sizes[0] == 0
    && (forall k | 0 <= k < |sizes| :: sizes[k] <= |log|)
    && (forall k | 0 < k < |sizes| :: sizes[k - 1] <= sizes[k])
  }

  function Polls(log: Bytes, sizes: seq<nat>): (text: Bytes)
    requires Grows(sizes, log)
  {
    if |sizes| == 1 then []
    else
      var n := |sizes| - 1;
      assert Grows(sizes[..n], log);
      Polls(log, sizes[..n]) + Poll(log, sizes[n - 1], sizes[n])
  }

  /** A cut that is harmless in the whole log is harmless in the part read so far. */
  lemma SplitsInWhole(p: Bytes, n: nat, r: nat)
    requires r <= n <= |p| && SplitsNotePrefix(p[..n], r)
    ensures SplitsNotePrefix(p, r)
  {
    var q := p[..n];
    var s := TokenStart(q, 0, r);
    AtPrefix(p, n, s, NOTE_PREFIX);
    ReachesInWhole(p, n, 0, s);
    TokenStartUnique(p, 0, r, s);
  }

  lemma {:induction false} TokenStartUnique(p: Bytes, i: nat, r: nat, s: nat)
    requires i <= s < r <= |p| && Reaches(p, i, s) && (Step(p, s) == STOP || r < Step(p, s))
    ensures TokenStart(p, i, r) == s
    decreases |p| - i
  {
    if i != s {
      ReachesBound(p, Step(p, i), s);
      TokenStartUnique(p, Step(p, i), r, s);
    }
  }

  lemma PollExtends(log: Bytes, r: nat, size: nat)
    requires r <= size <= |log| && ReadInStep(log[..r]) && size - Base(r) <= PAYLOAD_LIMIT && !SplitsNotePrefix(log, r)
    ensures Sanitize(log[..r]) + Poll(log, r, size) == Sanitize(log[..size])
  {
    PollIsExact(log, r, size);
    var q := log[..size];
    if SplitsNotePrefix(q, r) {
      SplitsInWhole(log, size, r);
    }
    CutIsExact(q, r);
    assert q[..r] == log[..r];
  }

  /** Reassembly: however a log grows between polls, the texts of the polls join to the sanitised log, if the scanners are
      in step at the start of each poll, no poll ends inside a note prefix and none runs into the payload limit. */
  lemma {:induction false} PollsReassemble(log: Bytes, sizes: seq<nat>)
    requires Grows(sizes, log)
    requires forall k | 0 <= k < |sizes| - 1 :: ReadInStep(log[..sizes[k]])
    requires forall k | 0 <= k < |sizes| :: !SplitsNotePrefix(log, sizes[k])
    requires forall k | 0 < k < |sizes| :: sizes[k] - Base(sizes[k - 1]) <= PAYLOAD_LIMIT
    ensures Polls(log, sizes) == Sanitize(log[..sizes[|sizes| - 1]])
    decreases |sizes|
  {
    if |sizes| > 1 {
      var n := |sizes| - 1;
      var r, size := sizes[n - 1], sizes[n];
      PollsReassemble(log, sizes[..n]);
      PollExtends(log, r, size);
    }
  }

  // ---------------------------------------------------------------- where the promise ends

  function Letters(n: nat): (body: Bytes)
    ensures |body| == n && forall b | b in body :: b == 0x41
  {
    if n == 0 then [] else [0x41] + Letters(n - 1)
  }

  function LongNote(n: nat): Bytes { NOTE_PREFIX + Letters(n) + NOTE_SUFFIX }

  lemma LetterAt(n: nat, k: nat)
    requires k < n
    ensures |LongNote(n)| == n + 11 && LongNote(n)[7 + k] == 0x41
  {
    assert Letters(n)[k] in Letters(n);
  }

  lemma NoSuffixAtLetter(p: Bytes, i: nat)
    requires i < |p| && p[i] == 0x41
    ensures !At(p, i, NOTE_SUFFIX)
  {
    if i + 4 <= |p| {
      assert NOTE_SUFFIX[0] == ESC && p[i + 0] == p[i];
    }
  }

  lemma {:induction false} NoEarlySuffix(n: nat, i: nat)
    requires 7 <= i <= 7 + n
    ensures FindSuffix(LongNote(n), i) == 7 + n
    decreases 7 + n - i
  {
    var p := LongNote(n);
    if i == 7 + n {
      assert p[i..i + 4] == NOTE_SUFFIX;
    } else {
      LetterAt(n, i - 7);
      NoSuffixAtLetter(p, i);
      NoEarlySuffix(n, i + 1);
    }
  }

  lemma LongNoteIsInvisible(n: nat)
    ensures Sanitize(LongNote(n)) == []
  {
    var p := LongNote(n);
    assert |p| == n + 11 && p[0..7] == NOTE_PREFIX;
    NoEarlySuffix(n, 7);
    assert Step(p, 0) == |p| && Scan(p, |p|, 0, 0) == [];
  }

  /** A poll knows nothing of what began before its payload: without an ESC in sight it shows what it finds. */
  lemma PlainBytesShow(p: Bytes, r: nat)
    requires r < |p| && |p| - Base(r) <= PAYLOAD_LIMIT && Printable(p[r])
    requires forall k | Base(r) <= k <= r :: p[k] != ESC
    ensures Poll(p, r, |p|) != []
  {
    PollIsScan(p, r);
    PlainRun(p, Base(r), r);
    SkipTo(p, Base(r), r, r);
    NoteBytes(p, r);
    assert Shows(p, r, 0, r);
  }

  /** A note longer than the overlap shows its encoded text to a reader whose offset falls deep inside it, although
      the whole log has no visible byte. */
  lemma LongNoteLeaks(n: nat, r: nat)
    requires OVERLAP + 7 <= r < 7 + n && 11 + n - Base(r) <= PAYLOAD_LIMIT
    ensures Sanitize(LongNote(n)) == []
    ensures r < |LongNote(n)| && Poll(LongNote(n), r, |LongNote(n)|) != []
  {
    LongNoteIsInvisible(n);
    LetterAt(n, r - 7);
    forall k | Base(r) <= k <= r ensures LongNote(n)[k] == 0x41 {
      LetterAt(n, k - 7);
    }
    PlainBytesShow(LongNote(n), r);
  }

  /** Four bytes are enough to put a reader out of step: a control sequence that ends in ESC [, cut at the start of the
      overlap, when no final byte has come since. */
  lemma OpeningAtEndLeaks(q: Bytes)
    requires |q| == OVERLAP + 1 && q[0] == ESC && q[1] == BRACKET && q[2] == ESC && q[3] == BRACKET
    requires forall k | 4 <= k < |q| :: !Final(q[k])
    ensures !ReadInStep(q)
  {
    NoteBytes(q, 0);
    NoteBytes(q, 2);
    assert SequenceEnd(q, 2) == SequenceEnd(q, 3) == 4 == Step(q, 0);
    assert TokenStart(q, 0, 1) == 0;
    SequenceBody(q, 4);
    assert !Undecided(q, 0) && HasEnded(q, 0) && Overruns(q, 0, 1);
    assert !OpensNote(q, 2) && !HasEnded(q, 2);
    assert !InStep(q, 2, 4);
    assert !InStep(q, 0, 1);
  }

  // ---------------------------------------------------------------- polls that run into the payload limit

  /** What a poll leaves behind the payload limit is never shown: the reader moves on to `size`. */
  lemma CappedPollDropsTail(a: Bytes, b: Bytes, r: nat, size: nat)
    requires r <= size <= |a| && size <= |b| && size - Base(r) > PAYLOAD_LIMIT
    requires a[..Base(r) + PAYLOAD_LIMIT] == b[..Base(r) + PAYLOAD_LIMIT]
    ensures Poll(a, r, size) == Poll(b, r, size)
  {
    var end := Base(r) + PAYLOAD_LIMIT;
    assert a[Base(r)..size][..PAYLOAD_LIMIT] == a[..end][Base(r)..];
    assert b[Base(r)..size][..PAYLOAD_LIMIT] == b[..end][Base(r)..];
  }

  /** Such a poll stops at its payload limit: it shows what the log up to there emits. Together with what lies behind, that
      is everything, exactly if the limit does not fall inside a note prefix; and then nothing is lost exactly if what lies
      behind emits nothing. */
  lemma CappedPollExactly(log: Bytes, r: nat, size: nat)
    requires r <= size <= |log| && size - Base(r) > PAYLOAD_LIMIT && ReadInStep(log[..r])
    ensures var q, end := log[..size], Base(r) + PAYLOAD_LIMIT;
      && Poll(log, r, size) == Emitted(q[..end], r)
      && (Poll(log, r, size) + Emitted(q, end) == Emitted(q, r) <==> !SplitsNotePrefix(q, end))
      && (!SplitsNotePrefix(q, end) ==> (Poll(log, r, size) == Emitted(q, r) <==> Emitted(q, end) == []))
  {
    var q, end := log[..size], Base(r) + PAYLOAD_LIMIT;
    CappedPollIsShorter(log, r, size);
    assert log[..end][..r] == log[..r] && q[..end] == log[..end];
    ContinuationIsExact(log[..end], r);
    CutFromIsExact(q, r, end);
    SumIsFirst(Emitted(q[..end], r), Emitted(q, end));
  }

  lemma SumIsFirst(a: Bytes, b: Bytes)
    ensures a + b == a <==> b == []
  {
    assert |a + b| == |a| + |b|;
  }

  lemma SliceOfSlice(log: Bytes, from: nat, to: nat, size: nat)
    requires from <= to <= size <= |log|
    ensures log[from..size][..to - from] == log[from..to] && log[..to][from..to] == log[from..to]
  {
  }

  lemma CappedPollIsShorter(log: Bytes, r: nat, size: nat)
    requires r <= size <= |log| && size - Base(r) > PAYLOAD_LIMIT
    ensures var end := Base(r) + PAYLOAD_LIMIT; Poll(log, r, size) == Poll(log[..end], r, end)
  {
    var end := Base(r) + PAYLOAD_LIMIT;
    SliceOfSlice(log, Base(r), end, size);
    assert |log[..end][Base(r)..end]| == PAYLOAD_LIMIT;
  }
}
