/** Log sanitising of internal/cicd/jenkins.go: hidden Jenkins console notes and ECMA-48 control sequences
    are removed from a console log that is read piece by piece. */
module JenkinsLog {
  type Byte = b: int | 0 <= b < 256
  type Bytes = seq<Byte>

  const ESC: Byte := 0x1b
  const BRACKET: Byte := 0x5b

  /** ESC [ 8 m h a : opens a console note, ESC [ 0 m closes it. */
  const NOTE_PREFIX: Bytes := [0x1b, 0x5b, 0x38, 0x6d, 0x68, 0x61, 0x3a]
  const NOTE_SUFFIX: Bytes := [0x1b, 0x5b, 0x30, 0x6d]

  const OVERLAP := 4096
  const PAYLOAD_LIMIT := 0x20_0000

  predicate Final(b: Byte) { 0x40 <= b <= 0x7e }

  predicate Printable(b: Byte) { b >= 0x20 || b == 0x0a || b == 0x0d || b == 0x09 }

  predicate At(p: Bytes, i: nat, literal: Bytes) {
    i + |literal| <= |p| && forall k | 0 <= k < |literal| :: p[i + k] == literal[k]
  }

  // ---------------------------------------------------------------- tokens

  /** First index not below `i` where the note suffix starts, or -1. */
  function FindSuffix(p: Bytes, i: nat): (found: int)
    ensures found == -1 || i <= found <= |p| - 4
    decreases |p| - i
  {
    if i + 4 > |p| then -1 else if At(p, i, NOTE_SUFFIX) then i else FindSuffix(p, i + 1)
  }

  lemma {:induction false} FoundSuffix(p: Bytes, i: nat)
    ensures FindSuffix(p, i) >= 0 ==> At(p, FindSuffix(p, i), NOTE_SUFFIX)
    decreases |p| - i
  {
    if i + 4 <= |p| && !At(p, i, NOTE_SUFFIX) {
      FoundSuffix(p, i + 1);
    }
  }

  /** The index behind the first final byte at or behind `i`, or the end of the payload. */
  function SequenceEnd(p: Bytes, i: nat): (end: nat)
    requires i <= |p|
    ensures i <= end <= |p|
    decreases |p| - i
  {
    if i == |p| then i else if Final(p[i]) then i + 1 else SequenceEnd(p, i + 1)
  }

  predicate OpensNote(p: Bytes, i: nat) { At(p, i, NOTE_PREFIX) }

  predicate OpensSequence(p: Bytes, i: nat)
    requires i < |p|
  {
    p[i] == ESC && i + 1 < |p| && p[i + 1] == BRACKET
  }

  predicate Plain(p: Bytes, i: nat)
    requires i < |p|
  {
    !OpensNote(p, i) && !OpensSequence(p, i)
  }

  const STOP := -1

  /** Where the scanner goes from `i`; it stops at a note that never closes. */
  function Step(p: Bytes, i: nat): (next: int)
    requires i < |p|
    ensures next == STOP || i < next <= |p|
  {
    if OpensNote(p, i) then
      var close := FindSuffix(p, i + 7);
      if close < 0 then STOP else close + 4
    else if OpensSequence(p, i) then SequenceEnd(p, i + 2)
    else i + 1
  }

  /** What the scanner emits from index `i` on: printable plain bytes at absolute offset `wanted` or later,
      where index 0 has the absolute offset `base`. */
  function Scan(p: Bytes, i: nat, base: nat, wanted: int): (output: Bytes)
    decreases |p| - i
  {
    if i >= |p| || Step(p, i) == STOP then []
    else if Shows(p, i, base, wanted) then [p[i]] + Scan(p, Step(p, i), base, wanted)
    else Scan(p, Step(p, i), base, wanted)
  }

  predicate Shows(p: Bytes, i: nat, base: nat, wanted: int)
    requires i < |p|
  {
    Plain(p, i) && base + i >= wanted && Printable(p[i])
  }

  function Sanitize(p: Bytes): Bytes { Scan(p, 0, 0, 0) }

  /** The part of the sanitised log that comes from offset `r` and later. */
  function Emitted(p: Bytes, r: nat): Bytes { Scan(p, 0, 0, r) }

  method SkipSequence(payload: Bytes, start: nat) returns (index: nat)
    requires start <= |payload|
    ensures index == SequenceEnd(payload, start)
  {
    index := start;
    while index < |payload|
      invariant start <= index <= |payload|
      invariant SequenceEnd(payload, index) == SequenceEnd(payload, start)
    {
      var value := payload[index];
      index := index + 1;
      if 0x40 <= value <= 0x7e {
        return;
      }
    }
  }

  lemma ScanNote(p: Bytes, i: nat, base: nat, wanted: int)
    requires i < |p| && OpensNote(p, i)
    ensures Scan(p, i, base, wanted)
         == if FindSuffix(p, i + 7) < 0 then [] else Scan(p, FindSuffix(p, i + 7) + 4, base, wanted)
  {
  }

  lemma ScanSequence(p: Bytes, i: nat, base: nat, wanted: int)
    requires i < |p| && !OpensNote(p, i) && OpensSequence(p, i)
    ensures Scan(p, i, base, wanted) == Scan(p, SequenceEnd(p, i + 2), base, wanted)
  {
  }

  lemma ScanPlain(p: Bytes, i: nat, base: nat, wanted: int, output: Bytes)
    requires i < |p| && Plain(p, i)
    ensures output + Scan(p, i, base, wanted)
         == (if base + i >= wanted && Printable(p[i]) then output + [p[i]] else output) + Scan(p, i + 1, base, wanted)
  {
    Regroup(output, [p[i]], Scan(p, i + 1, base, wanted));
  }

  /** The loop of the source, against the scan. */
  method SanitizeJenkinsLog(payload: Bytes, baseOffset: nat, requestedOffset: nat) returns (output: Bytes)
    ensures output == Scan(payload, 0, baseOffset, requestedOffset)
  {
    output := [];
    var index := 0;
    while index < |payload|
      invariant 0 <= index <= |payload|
      invariant output + Scan(payload, index, baseOffset, requestedOffset)
             == Scan(payload, 0, baseOffset, requestedOffset)
      decreases |payload| - index
    {
      if At(payload, index, NOTE_PREFIX) {
        ScanNote(payload, index, baseOffset, requestedOffset);
        var close := FindSuffix(payload, index + |NOTE_PREFIX|);
        if close < 0 {
          break;
        }
        index := close + |NOTE_SUFFIX|;
        continue;
      }
      if payload[index] == ESC && index + 1 < |payload| && payload[index + 1] == BRACKET {
        ScanSequence(payload, index, baseOffset, requestedOffset);
        index := SkipSequence(payload, index + 2);
        continue;
      }
      ScanPlain(payload, index, baseOffset, requestedOffset, output);
      if baseOffset + index >= requestedOffset {
        var value := payload[index];
        if value >= 0x20 || value == 0x0a || value == 0x0d || value == 0x09 {
          output := output + [value];
        }
      }
      index := index + 1;
    }
  }

  lemma Regroup(a: Bytes, b: Bytes, c: Bytes)
    ensures a + (b + c) == (a + b) + c
  {
  }

  lemma NoteBytes(p: Bytes, i: nat)
    ensures OpensNote(p, i) ==>
      && i + 7 <= |p| && p[i] == ESC && p[i + 1] == BRACKET && p[i + 2] == 0x38 && p[i + 3] == 0x6d
      && p[i + 4] == 0x68 && p[i + 5] == 0x61 && p[i + 6] == 0x3a
  {
    if OpensNote(p, i) {
      var l := NOTE_PREFIX;
      assert l[0] == ESC && l[1] == BRACKET && l[2] == 0x38 && l[3] == 0x6d && l[4] == 0x68 && l[5] == 0x61 && l[6] == 0x3a;
      assert p[i + 0] == l[0] && p[i + 1] == l[1] && p[i + 2] == l[2] && p[i + 3] == l[3];
      assert p[i + 4] == l[4] && p[i + 5] == l[5] && p[i + 6] == l[6];
    }
  }

  // ---------------------------------------------------------------- what the output holds

  lemma {:induction false} OutputIsPrintable(p: Bytes, i: nat, base: nat, wanted: int)
    ensures forall b | b in Scan(p, i, base, wanted) :: Printable(b)
    decreases |p| - i
  {
    if i < |p| && Step(p, i) != STOP {
      OutputIsPrintable(p, Step(p, i), base, wanted);
    }
  }

  lemma {:induction false} PrintableIsUntouched(p: Bytes, i: nat)
    requires i <= |p| && forall b | b in p :: Printable(b)
    ensures Scan(p, i, 0, 0) == p[i..]
    decreases |p| - i
  {
    if i < |p| {
      assert p[i] in p;
      NoteBytes(p, i);
      PrintableIsUntouched(p, i + 1);
    }
  }

  /** A sanitised log has no control byte but tab, line feed and carriage return, and sanitising it again
      changes nothing. */
  lemma SanitizeIsClosed(p: Bytes)
    ensures forall b | b in Sanitize(p) :: Printable(b)
    ensures Sanitize(Sanitize(p)) == Sanitize(p)
  {
    OutputIsPrintable(p, 0, 0, 0);
    PrintableIsUntouched(Sanitize(p), 0);
  }

  // ---------------------------------------------------------------- scanning from the middle

  /** The scanner that starts at `i` comes by `k`. */
  predicate Reaches(p: Bytes, i: nat, k: nat)
    decreases |p| - i
  {
    i == k || (i < k && i < |p| && Step(p, i) != STOP && Reaches(p, Step(p, i), k))
  }

  predicate Boundary(p: Bytes, k: nat) { Reaches(p, 0, k) }

  lemma {:induction false} ReachesBound(p: Bytes, i: nat, k: nat)
    requires Reaches(p, i, k) && i <= |p|
    ensures i <= k <= |p|
    decreases |p| - i
  {
    if i != k {
      ReachesBound(p, Step(p, i), k);
    }
  }

  lemma {:induction false} ReachesStep(p: Bytes, i: nat, k: nat)
    requires Reaches(p, i, k) && k < |p| && Step(p, k) != STOP
    ensures Reaches(p, i, Step(p, k))
    decreases |p| - i
  {
    if i != k {
      ReachesStep(p, Step(p, i), k);
    } else {
      assert Reaches(p, Step(p, k), Step(p, k));
    }
  }

  /** Two scanners that met go on together. */
  lemma {:induction false} ReachesOnward(p: Bytes, i: nat, c: nat, k: nat)
    requires Reaches(p, i, c) && Reaches(p, i, k) && c <= k
    ensures Reaches(p, c, k)
    decreases |p| - i
  {
    if i != c {
      ReachesOnward(p, Step(p, i), c, k);
    }
  }

  /** Bytes before `c` do not matter to what is wanted from `c` on. */
  lemma {:induction false} SkipTo(p: Bytes, i: nat, c: nat, wanted: nat)
    requires Reaches(p, i, c) && c <= wanted
    ensures Scan(p, i, 0, wanted) == Scan(p, c, 0, wanted)
    decreases |p| - i
  {
    if i != c {
      SkipTo(p, Step(p, i), c, wanted);
    }
  }

  /** Beyond `wanted` every printable plain byte is wanted. */
  lemma {:induction false} WantedOrNot(p: Bytes, i: nat, wanted: nat)
    requires wanted <= i
    ensures Scan(p, i, 0, wanted) == Scan(p, i, 0, 0)
    decreases |p| - i
  {
    if i < |p| && Step(p, i) != STOP {
      WantedOrNot(p, Step(p, i), wanted);
    }
  }

  /** `q` is what `p` holds from `b` on. */
  predicate IsTail(p: Bytes, q: Bytes, b: nat) {
    |p| == |q| + b && forall k | 0 <= k < |q| :: q[k] == p[b + k]
  }

  lemma AtShift(p: Bytes, q: Bytes, b: nat, i: nat, literal: Bytes)
    requires IsTail(p, q, b)
    ensures At(q, i, literal) == At(p, b + i, literal)
  {
    if b + i + |literal| <= |p| {
      forall k | 0 <= k < |literal| ensures q[i + k] == literal[k] <==> p[b + i + k] == literal[k] {
        assert q[i + k] == p[b + (i + k)];
      }
    }
  }

  lemma {:induction false} FindShift(p: Bytes, q: Bytes, b: nat, i: nat)
    requires IsTail(p, q, b)
    ensures FindSuffix(p, b + i) == if FindSuffix(q, i) < 0 then -1 else FindSuffix(q, i) + b
    decreases |q| - i
  {
    AtShift(p, q, b, i, NOTE_SUFFIX);
    if i + 4 <= |q| && !At(q, i, NOTE_SUFFIX) {
      FindShift(p, q, b, i + 1);
    }
  }

  lemma {:induction false} SequenceShift(p: Bytes, q: Bytes, b: nat, i: nat)
    requires IsTail(p, q, b) && i <= |q|
    ensures SequenceEnd(p, b + i) == SequenceEnd(q, i) + b
    decreases |q| - i
  {
    if i < |q| && !Final(q[i]) {
      SequenceShift(p, q, b, i + 1);
    }
  }

  lemma OpeningShift(p: Bytes, q: Bytes, b: nat, i: nat)
    requires IsTail(p, q, b) && i < |q|
    ensures OpensNote(p, b + i) == OpensNote(q, i)
    ensures OpensSequence(p, b + i) == OpensSequence(q, i)
  {
    AtShift(p, q, b, i, NOTE_PREFIX);
    assert i + 1 < |q| ==> q[i + 1] == p[b + (i + 1)];
  }

  lemma StepShift(p: Bytes, q: Bytes, b: nat, i: nat)
    requires IsTail(p, q, b) && i < |q|
    ensures Step(p, b + i) == if Step(q, i) == STOP then STOP else Step(q, i) + b
    ensures Plain(p, b + i) == Plain(q, i)
  {
    OpeningShift(p, q, b, i);
    if OpensNote(q, i) {
      FindShift(p, q, b, i + 7);
    } else if OpensSequence(q, i) {
      SequenceShift(p, q, b, i + 2);
    }
  }

  /** A payload that starts at offset `b` scans like the whole log from `b`. */
  lemma {:induction false} ScanShift(p: Bytes, q: Bytes, b: nat, i: nat, wanted: int)
    requires IsTail(p, q, b)
    ensures Scan(q, i, b, wanted) == Scan(p, b + i, 0, wanted)
    decreases |q| - i
  {
    if i < |q| {
      StepShift(p, q, b, i);
      if Step(q, i) != STOP {
        ScanShift(p, q, b, Step(q, i), wanted);
      }
    }
  }

  lemma TailScans(p: Bytes, b: nat, wanted: int)
    requires b <= |p|
    ensures Scan(p[b..], 0, b, wanted) == Scan(p, b, 0, wanted)
  {
    var q := p[b..];
    assert IsTail(p, q, b);
    ScanShift(p, q, b, 0, wanted);
  }

  /** A payload from offset `b` yields exactly what the whole log emits from `r` on, as soon as both scanners
      meet at or before `r`. */
  lemma MeetingScannersAgree(p: Bytes, b: nat, r: nat, c: nat)
    requires b <= c <= r && b <= |p|
    requires Boundary(p, c) && Reaches(p, b, c)
    ensures Scan(p[b..], 0, b, r) == Emitted(p, r)
  {
    TailScans(p, b, r);
    SkipTo(p, b, c, r);
    SkipTo(p, 0, c, r);
  }

  // ---------------------------------------------------------------- scanning a log that stops early

  lemma AtPrefix(p: Bytes, r: nat, i: nat, literal: Bytes)
    requires r <= |p|
    ensures At(p[..r], i, literal) <==> At(p, i, literal) && i + |literal| <= r
  {
    if i + |literal| <= r {
      forall k | 0 <= k < |literal| ensures p[..r][i + k] == literal[k] <==> p[i + k] == literal[k] {
      }
    }
  }

  lemma {:induction false} FindPrefix(p: Bytes, r: nat, i: nat)
    requires r <= |p|
    ensures FindSuffix(p[..r], i)
         == if FindSuffix(p, i) >= 0 && FindSuffix(p, i) + 4 <= r then FindSuffix(p, i) else -1
    decreases |p| - i
  {
    AtPrefix(p, r, i, NOTE_SUFFIX);
    if i + 4 <= |p| && !At(p, i, NOTE_SUFFIX) {
      FindPrefix(p, r, i + 1);
    }
  }

  lemma {:induction false} SequencePrefix(p: Bytes, r: nat, i: nat)
    requires i <= r <= |p|
    ensures SequenceEnd(p[..r], i) == if SequenceEnd(p, i) <= r then SequenceEnd(p, i) else r
    decreases |p| - i
  {
    if i < r && !Final(p[i]) {
      SequencePrefix(p, r, i + 1);
    }
  }

  /** A token that ends within the first `r` bytes is the same token there. */
  lemma StepPrefix(p: Bytes, r: nat, i: nat)
    requires i < r <= |p| && Step(p, i) != STOP && Step(p, i) <= r
    ensures Step(p[..r], i) == Step(p, i) && Plain(p[..r], i) == Plain(p, i)
  {
    AtPrefix(p, r, i, NOTE_PREFIX);
    FindPrefix(p, r, i + 7);
    if OpensSequence(p, i) {
      SequencePrefix(p, r, i + 2);
    }
  }

  lemma {:induction false} ReachesPrefix(p: Bytes, r: nat, i: nat, k: nat)
    requires k <= r <= |p| && i <= |p| && Reaches(p, i, k)
    ensures Reaches(p[..r], i, k)
    decreases |p| - i
  {
    if i != k {
      ReachesBound(p, Step(p, i), k);
      StepPrefix(p, r, i);
      ReachesPrefix(p, r, Step(p, i), k);
    }
  }

  /** What the scanner emits between `i` and the boundary `c`. */
  function ShownUntil(p: Bytes, i: nat, c: nat, wanted: nat): (output: Bytes)
    requires Reaches(p, i, c)
    decreases |p| - i
  {
    if i == c then []
    else if Shows(p, i, 0, wanted) then [p[i]] + ShownUntil(p, Step(p, i), c, wanted)
    else ShownUntil(p, Step(p, i), c, wanted)
  }

  lemma {:induction false} ScanSplits(p: Bytes, i: nat, c: nat, wanted: nat)
    requires Reaches(p, i, c)
    ensures Scan(p, i, 0, wanted) == ShownUntil(p, i, c, wanted) + Scan(p, c, 0, wanted)
    decreases |p| - i
  {
    if i != c {
      ScanSplits(p, Step(p, i), c, wanted);
      Regroup([p[i]], ShownUntil(p, Step(p, i), c, wanted), Scan(p, c, 0, wanted));
    }
  }

  /** Up to a boundary, a log and its beginning emit the same bytes. */
  lemma {:induction false} ShownInPrefix(p: Bytes, r: nat, i: nat, c: nat, wanted: nat)
    requires c <= r <= |p| && i <= |p| && Reaches(p, i, c)
    ensures Reaches(p[..r], i, c) && ShownUntil(p[..r], i, c, wanted) == ShownUntil(p, i, c, wanted)
    decreases |p| - i
  {
    if i != c {
      ReachesBound(p, Step(p, i), c);
      StepPrefix(p, r, i);
      ShownInPrefix(p, r, Step(p, i), c, wanted);
    }
  }

  /** The boundary at or before `r` whose token, if any, covers `r`. */
  function TokenStart(p: Bytes, i: nat, r: nat): (s: nat)
    requires i <= r <= |p|
    ensures i <= s <= r && Reaches(p, i, s)
    ensures s < r ==> Step(p, s) == STOP || r < Step(p, s)
    decreases |p| - i
  {
    if i == r || Step(p, i) == STOP || r < Step(p, i) then i else TokenStart(p, Step(p, i), r)
  }

  /** The cut shows the reader of the first part a note that still looks like a colour sequence and text. */
  predicate SplitsNotePrefix(p: Bytes, r: nat)
    requires r <= |p|
  {
    var s := TokenStart(p, 0, r);
    OpensNote(p, s) && s + 5 <= r <= s + 6
  }

  /** A note cut before it closes. */
  lemma PartialNote(p: Bytes, s: nat, r: nat, wanted: nat)
    requires s < r <= |p| && OpensNote(p, s) && (Step(p, s) == STOP || r < Step(p, s)) && wanted <= s + 4
    ensures Scan(p[..r], s, 0, wanted) == [] <==> !(s + 5 <= r <= s + 6)
  {
    var q := p[..r];
    AtPrefix(p, r, s, NOTE_PREFIX);
    NoteBytes(p, s);
    if s + 7 <= r {
      FindPrefix(p, r, s + 7);
    } else if r <= s + 2 {
      assert !Printable(q[s]);
      assert Step(q, s) == r;
    } else if r <= s + 4 {
      assert SequenceEnd(q, s + 2) == SequenceEnd(q, s + 3) == r;
    } else {
      assert SequenceEnd(q, s + 2) == SequenceEnd(q, s + 3) == s + 4 == Step(q, s);
      AtPrefix(p, r, s + 4, NOTE_PREFIX);
      assert Shows(q, s + 4, 0, wanted);
    }
  }

  /** The first `r` bytes of a token that is cut show nothing, but for a cut in the note prefix. */
  lemma PartialToken(p: Bytes, s: nat, r: nat, wanted: nat)
    requires s < r <= |p| && (Step(p, s) == STOP || r < Step(p, s)) && (wanted == 0 || wanted + 2 <= r)
    ensures Scan(p[..r], s, 0, wanted) == [] <==> !(OpensNote(p, s) && s + 5 <= r <= s + 6)
  {
    var q := p[..r];
    if OpensNote(p, s) {
      if wanted <= s + 4 {
        PartialNote(p, s, r, wanted);
      } else {
        AtPrefix(p, r, s, NOTE_PREFIX);
        FindPrefix(p, r, s + 7);
      }
    } else {
      AtPrefix(p, r, s, NOTE_PREFIX);
      if r == s + 1 {
        assert !Printable(q[s]);
      } else {
        SequencePrefix(p, r, s + 2);
      }
      assert Step(q, s) == r;
    }
  }

  /** What a token that is cut emits, and everything behind it, is wanted from the cut on. */
  lemma TokenOfWanted(p: Bytes, s: nat, r: nat, wanted: nat)
    requires wanted <= r && s <= r <= |p| && (s < r ==> Step(p, s) == STOP || r < Step(p, s))
    ensures Scan(p, s, 0, r) == Scan(p, s, 0, wanted)
  {
    if s == r {
      WantedOrNot(p, s, r);
      WantedOrNot(p, s, wanted);
    } else if Step(p, s) != STOP {
      WantedOrNot(p, Step(p, s), r);
      WantedOrNot(p, Step(p, s), wanted);
    }
  }

  /** What is emitted up to a cut and from the cut on is what is emitted in all, exactly when the cut does not fall between
      the fifth and the sixth byte of a note prefix. */
  lemma CutFromIsExact(p: Bytes, wanted: nat, r: nat)
    requires r <= |p| && (wanted == 0 || wanted + 2 <= r)
    ensures Emitted(p[..r], wanted) + Emitted(p, r) == Emitted(p, wanted) <==> !SplitsNotePrefix(p, r)
  {
    var s := TokenStart(p, 0, r);
    ScanSplits(p, 0, s, wanted);
    ShownInPrefix(p, r, 0, s, wanted);
    ScanSplits(p[..r], 0, s, wanted);
    SkipTo(p, 0, s, r);
    TokenOfWanted(p, s, r, wanted);
    if s < r {
      PartialToken(p, s, r, wanted);
    }
    JoinIsExact(ShownUntil(p, 0, s, wanted), Scan(p[..r], s, 0, wanted), Scan(p, s, 0, wanted));
  }

  /** Cutting a log at any offset keeps its sanitised text, with the same exception. */
  lemma CutIsExact(p: Bytes, r: nat)
    requires r <= |p|
    ensures Sanitize(p[..r]) + Emitted(p, r) == Sanitize(p) <==> !SplitsNotePrefix(p, r)
  {
    CutFromIsExact(p, 0, r);
  }

  lemma JoinIsExact(before: Bytes, partial: Bytes, rest: Bytes)
    ensures before + partial + rest == before + rest <==> partial == []
  {
    assert |before + partial + rest| == |before + rest| + |partial|;
    if partial == [] {
      assert before + partial == before;
    }
  }
}
