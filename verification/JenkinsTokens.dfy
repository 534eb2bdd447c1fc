/** What sanitising means, without the scanner: a console log is a list of tokens, written out in bytes, and the sanitised
    log is its visible bytes. */
module JenkinsTokens {
  import opened JenkinsLog

  datatype Token =
    | Single(b: Byte)                              // an ordinary byte
    | Sequence(parameters: Bytes, final: Byte)     // ESC [ parameters final
    | OpenSequence(parameters: Bytes)              // the log ends before the final byte
    | Note(body: Bytes)                            // ESC [8mha: body ESC [0m
    | OpenNote(body: Bytes)                        // the log ends before the closing bytes

  function Written(token: Token): Bytes {
    match token
    case Single(b) => [b]
    case Sequence(parameters, final) => [0x1b, 0x5b] + parameters + [final]
    case OpenSequence(parameters) => [0x1b, 0x5b] + parameters
    case Note(body) => [0x1b, 0x5b, 0x38, 0x6d, 0x68, 0x61, 0x3a] + body + [0x1b, 0x5b, 0x30, 0x6d]
    case OpenNote(body) => [0x1b, 0x5b, 0x38, 0x6d, 0x68, 0x61, 0x3a] + body
  }

  predicate NoFinals(parameters: Bytes) {
    forall b | b in parameters :: b < 0x40 || b > 0x7e
  }

  /** ESC [0m stands here. */
  predicate ClosesAt(s: Bytes, k: nat) {
    k + 4 <= |s| && s[k] == 0x1b && s[k + 1] == 0x5b && s[k + 2] == 0x30 && s[k + 3] == 0x6d
  }

  predicate ClosesBefore(s: Bytes, end: nat) {
    exists k | 0 <= k < end :: ClosesAt(s, k)
  }

  /** The token is read as such in front of `rest`. */
  predicate Fits(token: Token, rest: Bytes) {
    match token
    case Single(b) => !(b == 0x1b && rest != [] && rest[0] == 0x5b)
    case Sequence(parameters, final) =>
      && NoFinals(parameters) && 0x40 <= final <= 0x7e
      && !(parameters == [0x38] && final == 0x6d && |rest| >= 3 && rest[0] == 0x68 && rest[1] == 0x61 && rest[2] == 0x3a)
    case OpenSequence(parameters) => NoFinals(parameters) && rest == []
    case Note(body) => !ClosesBefore(body + [0x1b, 0x5b, 0x30, 0x6d], |body|)
    case OpenNote(body) => !ClosesBefore(body, |body|) && rest == []
  }

  function Visible(token: Token): Bytes {
    match token
    case Single(b) => if b >= 0x20 || b == 0x09 || b == 0x0a || b == 0x0d then [b] else []
    case _ => []
  }

  function WrittenAll(tokens: seq<Token>): Bytes {
    if tokens == [] then [] else Written(tokens[0]) + WrittenAll(tokens[1..])
  }

  function VisibleAll(tokens: seq<Token>): Bytes {
    if tokens == [] then [] else Visible(tokens[0]) + VisibleAll(tokens[1..])
  }

  predicate AllFit(tokens: seq<Token>) {
    tokens == [] || (Fits(tokens[0], WrittenAll(tokens[1..])) && AllFit(tokens[1..]))
  }

  // ---------------------------------------------------------------- the scanner, token by token

  lemma {:induction false} BaseDoesNotMatter(p: Bytes, i: nat, base: nat)
    ensures Scan(p, i, base, 0) == Scan(p, i, 0, 0)
    decreases |p| - i
  {
    if i < |p| && Step(p, i) != STOP {
      BaseDoesNotMatter(p, Step(p, i), base);
    }
  }

  lemma RestScans(p: Bytes, n: nat)
    requires n <= |p|
    ensures Scan(p, n, 0, 0) == Sanitize(p[n..])
  {
    TailScans(p, n, 0);
    BaseDoesNotMatter(p[n..], 0, n);
  }

  lemma OpensNoteMeans(p: Bytes)
    ensures OpensNote(p, 0) <==>
      && |p| >= 7 && p[0] == 0x1b && p[1] == 0x5b && p[2] == 0x38 && p[3] == 0x6d
      && p[4] == 0x68 && p[5] == 0x61 && p[6] == 0x3a
  {
    NoteBytes(p, 0);
    var l := NOTE_PREFIX;
    assert l[0] == 0x1b && l[1] == 0x5b && l[2] == 0x38 && l[3] == 0x6d && l[4] == 0x68 && l[5] == 0x61 && l[6] == 0x3a;
  }

  lemma SuffixMeans(p: Bytes, i: nat)
    ensures At(p, i, NOTE_SUFFIX) <==> ClosesAt(p, i)
  {
    var l := NOTE_SUFFIX;
    assert l[0] == 0x1b && l[1] == 0x5b && l[2] == 0x30 && l[3] == 0x6d;
    if At(p, i, NOTE_SUFFIX) {
      assert p[i + 0] == l[0] && p[i + 1] == l[1] && p[i + 2] == l[2] && p[i + 3] == l[3];
    }
  }

  lemma {:induction false} EndIs(p: Bytes, i: nat, end: nat)
    requires i <= end <= |p| && forall k | i <= k < end :: p[k] < 0x40 || p[k] > 0x7e
    ensures SequenceEnd(p, i) == if end == |p| then end else if 0x40 <= p[end] <= 0x7e then end + 1 else SequenceEnd(p, end)
    decreases end - i
  {
    if i < end {
      EndIs(p, i + 1, end);
    }
  }

  lemma {:induction false} CloseIs(p: Bytes, i: nat, end: nat)
    requires i <= end && forall k | i <= k < end :: !At(p, k, NOTE_SUFFIX)
    ensures FindSuffix(p, i) == if At(p, end, NOTE_SUFFIX) then end else if end + 4 > |p| then -1 else FindSuffix(p, end)
    decreases end - i
  {
    if i < end && i + 4 <= |p| {
      CloseIs(p, i + 1, end);
    }
  }

  lemma SequenceLaw(token: Token, rest: Bytes)
    requires (token.Sequence? || token.OpenSequence?) && Fits(token, rest)
    ensures Sanitize(Written(token) + rest) == Sanitize(rest)
  {
    var p, n := Written(token) + rest, |Written(token)|;
    assert p[n..] == rest;
    forall k | 2 <= k < |token.parameters| + 2 ensures p[k] < 0x40 || p[k] > 0x7e {
      assert p[k] == token.parameters[k - 2] && p[k] in token.parameters;
    }
    NotANote(token, rest);
    EndIs(p, 2, |token.parameters| + 2);
    assert Step(p, 0) == n;
    RestScans(p, n);
  }

  lemma NotANote(token: Token, rest: Bytes)
    requires (token.Sequence? || token.OpenSequence?) && Fits(token, rest)
    ensures !OpensNote(Written(token) + rest, 0)
  {
    var p, q := Written(token) + rest, token.parameters;
    OpensNoteMeans(p);
    assert |q| >= 2 ==> p[3] == q[1] && q[1] in q;
    assert |q| == 1 ==> p[2] == q[0] && q == [q[0]];
    assert token.Sequence? && |q| == 1 ==> p[3] == token.final && p[4..] == rest;
    assert |q| == 1 && |rest| >= 3 && token.Sequence? ==> p[4] == rest[0] && p[5] == rest[1] && p[6] == rest[2];
    assert token.Sequence? && q == [] ==> p[2] == token.final;
  }

  /** Bytes behind a prefix of seven close a note where they do by themselves. */
  lemma ClosesBehind(p: Bytes, s: Bytes, k: nat)
    requires |s| + 7 <= |p| && (forall i | 0 <= i < |s| :: p[i + 7] == s[i]) && k + 4 <= |s|
    ensures At(p, k + 7, NOTE_SUFFIX) <==> ClosesAt(s, k)
  {
    SuffixMeans(p, k + 7);
    assert p[k + 7] == s[k] && p[k + 1 + 7] == s[k + 1] && p[k + 2 + 7] == s[k + 2] && p[k + 3 + 7] == s[k + 3];
  }

  lemma ClosedNote(p: Bytes, closed: Bytes, b: nat)
    requires |closed| == b + 4 && |p| >= b + 11 && (forall i | 0 <= i < b + 4 :: p[i + 7] == closed[i])
    requires !ClosesBefore(closed, b) && ClosesAt(closed, b)
    ensures FindSuffix(p, 7) == b + 7
  {
    forall k | 7 <= k < b + 7 ensures !At(p, k, NOTE_SUFFIX) {
      assert !ClosesAt(closed, k - 7);
      ClosesBehind(p, closed, k - 7);
    }
    ClosesBehind(p, closed, b);
    CloseIs(p, 7, b + 7);
  }

  lemma NoteLaw(token: Token, rest: Bytes)
    requires token.Note? && Fits(token, rest)
    ensures Sanitize(Written(token) + rest) == Sanitize(rest)
  {
    var p, n, b := Written(token) + rest, |Written(token)|, |token.body|;
    var closed := token.body + [0x1b, 0x5b, 0x30, 0x6d];
    assert p[n..] == rest;
    assert forall k | 0 <= k < b + 4 :: p[k + 7] == closed[k];
    OpensNoteMeans(p);
    ClosedNote(p, closed, b);
    assert Step(p, 0) == n;
    RestScans(p, n);
  }

  lemma OpenNoteLaw(token: Token)
    requires token.OpenNote? && Fits(token, [])
    ensures Sanitize(Written(token)) == []
  {
    var p, b := Written(token), |token.body|;
    assert forall k | 0 <= k < b :: p[k + 7] == token.body[k];
    OpensNoteMeans(p);
    forall k | 7 <= k < b + 7 ensures !At(p, k, NOTE_SUFFIX) {
      SuffixMeans(p, k);
      assert !ClosesAt(token.body, k - 7);
      if k + 4 <= |p| {
        assert p[k] == token.body[k - 7] && p[k + 1] == token.body[k - 6] && p[k + 2] == token.body[k - 5] && p[k + 3] == token.body[k - 4];
      }
    }
    CloseIs(p, 7, b + 7);
    SuffixMeans(p, b + 7);
  }

  /** One token in front of any log: an ordinary byte stays if it is printable, everything else vanishes. */
  lemma TokenLaw(token: Token, rest: Bytes)
    requires Fits(token, rest)
    ensures Sanitize(Written(token) + rest) == Visible(token) + Sanitize(rest)
  {
    match token
    case Single(b) =>
      var p := [b] + rest;
      assert p[1..] == rest;
      OpensNoteMeans(p);
      RestScans(p, 1);
    case Sequence(_, _) => SequenceLaw(token, rest);
    case OpenSequence(_) => SequenceLaw(token, rest);
    case Note(_) => NoteLaw(token, rest);
    case OpenNote(_) =>
      OpenNoteLaw(token);
      assert Written(token) + rest == Written(token);
  }

  /** The sanitised log is exactly the visible bytes of its tokens. */
  lemma {:induction false} SanitizeIsVisible(tokens: seq<Token>)
    requires AllFit(tokens)
    ensures Sanitize(WrittenAll(tokens)) == VisibleAll(tokens)
  {
    if tokens != [] {
      SanitizeIsVisible(tokens[1..]);
      TokenLaw(tokens[0], WrittenAll(tokens[1..]));
    }
  }

  // ---------------------------------------------------------------- every log is a list of tokens

  /** The first token of a log. */
  lemma FirstToken(p: Bytes) returns (token: Token, rest: Bytes)
    requires p != []
    ensures p == Written(token) + rest && Fits(token, rest) && |rest| < |p|
  {
    OpensNoteMeans(p);
    if OpensNote(p, 0) {
      token, rest := FirstNote(p);
    } else if |p| >= 2 && p[0] == 0x1b && p[1] == 0x5b {
      token, rest := FirstSequence(p);
    } else {
      token, rest := Single(p[0]), p[1..];
      assert p == [p[0]] + p[1..];
    }
  }

  lemma FirstSequence(p: Bytes) returns (token: Token, rest: Bytes)
    requires |p| >= 2 && p[0] == 0x1b && p[1] == 0x5b && !OpensNote(p, 0)
    ensures p == Written(token) + rest && Fits(token, rest) && |rest| < |p|
  {
    var end := 2;
    while end < |p| && !(0x40 <= p[end] <= 0x7e)
      invariant 2 <= end <= |p| && forall k | 2 <= k < end :: p[k] < 0x40 || p[k] > 0x7e
    {
      end := end + 1;
    }
    if end == |p| {
      token, rest := OpenSequence(p[2..]), [];
      assert p == [0x1b, 0x5b] + p[2..];
    } else {
      token, rest := Sequence(p[2..end], p[end]), p[end + 1..];
      SequenceFits(p, end);
    }
  }

  lemma SequenceFits(p: Bytes, end: nat)
    requires 2 <= end < |p| && p[0] == 0x1b && p[1] == 0x5b && !OpensNote(p, 0)
    requires 0x40 <= p[end] <= 0x7e && forall k | 2 <= k < end :: p[k] < 0x40 || p[k] > 0x7e
    ensures p == Written(Sequence(p[2..end], p[end])) + p[end + 1..]
    ensures Fits(Sequence(p[2..end], p[end]), p[end + 1..])
  {
    assert p == [0x1b, 0x5b] + p[2..end] + [p[end]] + p[end + 1..];
    OpensNoteMeans(p);
    if p[2..end] == [0x38] {
      assert end == 3 && p[2] == p[2..end][0];
    }
  }

  lemma FirstNote(p: Bytes) returns (token: Token, rest: Bytes)
    requires OpensNote(p, 0)
    ensures p == Written(token) + rest && Fits(token, rest) && |rest| < |p|
  {
    OpensNoteMeans(p);
    var end := 7;
    while end + 4 <= |p| && !ClosesAt(p, end)
      invariant 7 <= end <= |p| && forall k | 7 <= k < end :: !ClosesAt(p, k)
    {
      end := end + 1;
    }
    assert p == [0x1b, 0x5b, 0x38, 0x6d, 0x68, 0x61, 0x3a] + p[7..];
    if end + 4 > |p| {
      token, rest := OpenNote(p[7..]), [];
      NothingCloses(p, p[7..], |p| - 7);
    } else {
      token, rest := Note(p[7..end]), p[end + 4..];
      var closed := p[7..end] + [0x1b, 0x5b, 0x30, 0x6d];
      assert p[end..end + 4] == [p[end], p[end + 1], p[end + 2], p[end + 3]];
      assert closed == p[7..end + 4] && p[7..] == closed + rest;
      NothingCloses(p, closed, end - 7);
    }
  }

  lemma NothingCloses(p: Bytes, body: Bytes, end: nat)
    requires |p| >= |body| + 7 && body == p[7..|body| + 7]
    requires forall k | 7 <= k < end + 7 && k + 4 <= |p| :: !ClosesAt(p, k)
    ensures !ClosesBefore(body, end)
  {
    forall k | 0 <= k < end ensures !ClosesAt(body, k) {
      if k + 4 <= |body| {
        assert !ClosesAt(p, k + 7);
        assert body[k] == p[k + 7] && body[k + 1] == p[k + 8] && body[k + 2] == p[k + 9] && body[k + 3] == p[k + 10];
      }
    }
  }

  /** Nothing is left out: every log is the writing of tokens that fit. */
  lemma {:induction false} EveryLogHasTokens(p: Bytes) returns (tokens: seq<Token>)
    ensures AllFit(tokens) && WrittenAll(tokens) == p
    decreases |p|
  {
    if p == [] {
      tokens := [];
    } else {
      var token, rest := FirstToken(p);
      var more := EveryLogHasTokens(rest);
      tokens := [token] + more;
      assert tokens[1..] == more;
    }
  }

  /** The bytes of a text that are no control bytes, or tab, line feed and carriage return. */
  function Kept(text: Bytes): Bytes {
    if text == [] then []
    else (if text[0] >= 0x20 || text[0] in {0x09, 0x0a, 0x0d} then [text[0]] else []) + Kept(text[1..])
  }

  /** Text without escape bytes stays as it is, but for the other control bytes. */
  lemma {:induction false} TextStays(text: Bytes, rest: Bytes)
    requires 0x1b !in text
    ensures Sanitize(text + rest) == Kept(text) + Sanitize(rest)
    ensures (forall b | b in text :: b >= 0x20) ==> Kept(text) == text
  {
    if text == [] {
      assert text + rest == rest;
    } else {
      assert text + rest == [text[0]] + (text[1..] + rest) && text == [text[0]] + text[1..];
      assert text[0] in text && forall b | b in text[1..] :: b in text;
      TextStays(text[1..], rest);
      TokenLaw(Single(text[0]), text[1..] + rest);
    }
  }
}
