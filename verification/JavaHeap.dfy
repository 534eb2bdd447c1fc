/** JVM heap options and memory quantities as internal/environment/repository.go reads and writes them. The pattern
    `(?i)-Xm([sx])([1-9][0-9]*)([kmgt]?)\b` is a scanner here: its longest reading is its only one. */
module JavaHeap {
  import opened Options
  import opened Documents
  import opened Decimals

  const MAX_INT64 := 0x7fff_ffff_ffff_ffff
  const KIB := 0x400
  const MIB := 0x10_0000
  const GIB := 0x4000_0000
  const TIB := 0x100_0000_0000

  // ---------------------------------------------------------------- one option

  predicate IsWord(c: char) { 'a' <= c <= 'z' || 'A' <= c <= 'Z' || '0' <= c <= '9' || c == '_' }

  predicate IsUnit(c: char) { c in {'k', 'm', 'g', 't', 'K', 'M', 'G', 'T'} }

  function Multiplier(c: char): (m: nat)
    ensures m >= 1
  {
    if c in {'k', 'K'} then KIB
    else if c in {'m', 'M'} then MIB
    else if c in {'g', 'G'} then GIB
    else if c in {'t', 'T'} then TIB
    else 1
  }

  predicate StartsOption(s: string) {
    |s| >= 5 && s[0] == '-' && s[1] in {'x', 'X'} && s[2] in {'m', 'M'} && s[3] in {'s', 'S', 'x', 'X'} && '1' <= s[4] <= '9'
  }

  function DigitsEnd(s: string, i: nat): (end: nat)
    requires i <= |s|
    ensures i <= end <= |s| && AllDigits(s[i..end]) && (end == |s| || !IsDigit(s[end]))
    decreases |s| - i
  {
    if i == |s| || !IsDigit(s[i]) then i else DigitsEnd(s, i + 1)
  }

  lemma {:induction false} DigitsEndIs(s: string, i: nat, end: nat)
    requires i <= end <= |s| && AllDigits(s[i..end]) && (end == |s| || !IsDigit(s[end]))
    ensures DigitsEnd(s, i) == end
    decreases end - i
  {
    if i < end {
      assert IsDigit(s[i..end][0]);
      assert s[i + 1..end] == s[i..end][1..];
      DigitsEndIs(s, i + 1, end);
    }
  }

  /** Where an option ends: after its digits, and its unit if it has one. */
  function OptionEnd(s: string): (end: nat)
    requires StartsOption(s)
    ensures 5 <= end <= |s|
  {
    var d := DigitsEnd(s, 4);
    DigitsEndIsAfter(s);
    if d < |s| && IsUnit(s[d]) then d + 1 else d
  }

  lemma DigitsEndIsAfter(s: string)
    requires StartsOption(s)
    ensures DigitsEnd(s, 4) >= 5
  {
    assert DigitsEnd(s, 4) == DigitsEnd(s, 5);
  }

  /** The length of the option at the start of a text; 0 if there is none. */
  function Match(s: string): (length: nat)
    ensures length <= |s| && (length > 0 ==> length >= 5 && s[0] == '-' && StartsOption(s))
  {
    if StartsOption(s) && (OptionEnd(s) == |s| || !IsWord(s[OptionEnd(s)])) then OptionEnd(s) else 0
  }

  predicate IsOption(o: string) { o != "" && Match(o) == |o| }

  predicate NoWordFirst(s: string) { s == "" || !IsWord(s[0]) }

  /** A match does not depend on what follows it, as long as that starts outside a word. */
  lemma MatchCut(p: string, tail: string)
    requires p != "" && NoWordFirst(tail)
    ensures Match(p + tail) == Match(p)
  {
    var s := p + tail;
    if |p| >= 5 {
      assert s[0] == p[0] && s[1] == p[1] && s[2] == p[2] && s[3] == p[3] && s[4] == p[4];
      if StartsOption(p) {
        var d := DigitsEnd(p, 4);
        assert s[4..d] == p[4..d];
        assert d == |p| ==> tail == "" || !IsDigit(tail[0]);
        assert d == |p| && d < |s| ==> s[d] == tail[0];
        DigitsEndIs(s, 4, d);
        assert d < |p| ==> s[d] == p[d];
        var e := OptionEnd(p);
        assert OptionEnd(s) == e by {
          assert d == |p| && d < |s| ==> !IsUnit(s[d]);
        }
        assert e < |p| ==> s[e] == p[e];
        assert e == |p| && e < |s| ==> s[e] == tail[0];
      }
    } else if |s| >= 5 && |p| < 5 {
      assert s[|p|] == tail[0];
    }
  }

  /** The letter of a unit and what it stands for. */
  lemma UnitsMean(c: char)
    ensures Multiplier('k') == Multiplier('K') == 1024 && Multiplier('m') == Multiplier('M') == 1024 * 1024
    ensures Multiplier('g') == Multiplier('G') == 1024 * 1024 * 1024
    ensures Multiplier('t') == Multiplier('T') == 1024 * 1024 * 1024 * 1024
    ensures c !in "kmgtKMGT" ==> Multiplier(c) == 1 && !IsUnit(c)
    ensures MAX_INT64 == 9223372036854775807
  {
    var all := "kmgtKMGT";
    assert all[0] == 'k' && all[1] == 'm' && all[2] == 'g' && all[3] == 't';
    assert all[4] == 'K' && all[5] == 'M' && all[6] == 'G' && all[7] == 'T';
  }

  /** -Xms or -Xmx in any case, digits without a leading zero, and perhaps a unit. */
  predicate IsWritten(name: string, digits: string, unit: string) {
    && |name| == 4 && name[0] == '-' && name[1] in {'x', 'X'} && name[2] in {'m', 'M'} && name[3] in {'s', 'S', 'x', 'X'}
    && digits != "" && AllDigits(digits) && digits[0] != '0'
    && |unit| <= 1 && (unit != "" ==> IsUnit(unit[0]))
  }

  /** What is written as an option is read as one, unless letters, digits or _ follow it. */
  lemma WrittenIsRead(name: string, digits: string, unit: string, tail: string)
    requires IsWritten(name, digits, unit)
    ensures var o := name + digits + unit;
      && (NoWordFirst(tail) ==> Match(o + tail) == |o|)
      && (tail != "" && IsWord(tail[0]) && (unit != "" || (!IsDigit(tail[0]) && !IsUnit(tail[0]))) ==> Match(o + tail) == 0)
      && StartsOption(o) && DigitsEnd(o, 4) == 4 + |digits| && o[4..4 + |digits|] == digits
  {
    var o, end := name + digits + unit, 4 + |digits|;
    var s := o + tail;
    assert forall i | 0 <= i < 4 :: s[i] == name[i] && o[i] == name[i];
    assert forall i | 0 <= i < |digits| :: s[4 + i] == digits[i] && o[4 + i] == digits[i];
    assert s[4..end] == digits && o[4..end] == digits && IsDigit(digits[0]);
    assert unit != "" ==> s[end] == unit[0] && o[end] == unit[0];
    assert unit == "" && tail != "" ==> s[end] == tail[0];
    assert unit != "" && tail != "" ==> s[end + 1] == tail[0];
    DigitsEndIs(o, 4, end);
    if NoWordFirst(tail) {
      DigitsEndIs(s, 4, end);
    } else if unit != "" || (!IsDigit(tail[0]) && !IsUnit(tail[0])) {
      DigitsEndIs(s, 4, end);
    }
  }

  lemma WordMeans(c: char)
    ensures IsWord(c) <==> 'a' <= c <= 'z' || 'A' <= c <= 'Z' || IsDigit(c) || c == '_'
  {
  }

  /** Every option is written like that. */
  lemma OptionIsWritten(s: string) returns (name: string, digits: string, unit: string)
    requires Match(s) > 0
    ensures IsWritten(name, digits, unit) && s[..Match(s)] == name + digits + unit
    ensures Match(s) < |s| ==> !IsWord(s[Match(s)])
  {
    var d := DigitsEnd(s, 4);
    DigitsEndIsAfter(s);
    name, digits, unit := s[..4], s[4..d], s[d..OptionEnd(s)];
    assert s[4..d][0] == s[4];
  }

  // ---------------------------------------------------------------- the whole text

  datatype Piece = Heap(text: string) | Plain(c: char)

  function Scan(text: string): (pieces: seq<Piece>)
    ensures text != "" ==> pieces != []
  {
    if text == "" then []
    else
      var n := Match(text);
      if n > 0 then [Heap(text[..n])] + Scan(text[n..]) else [Plain(text[0])] + Scan(text[1..])
  }

  function TextOf(piece: Piece): string {
    match piece
    case Heap(text) => text
    case Plain(c) => [c]
  }

  function Render(pieces: seq<Piece>): string {
    if pieces == [] then "" else TextOf(pieces[0]) + Render(pieces[1..])
  }

  lemma RenderCons(piece: Piece, rest: seq<Piece>)
    ensures Render([piece] + rest) == TextOf(piece) + Render(rest)
  {
    assert ([piece] + rest)[1..] == rest;
  }

  lemma ScanNext(text: string)
    requires text != ""
    ensures var n := Match(text); var k := if n > 0 then n else 1;
      Scan(text) == [if n > 0 then Heap(text[..n]) else Plain(text[0])] + Scan(text[k..])
  {
  }

  lemma Parts(text: string, n: nat)
    requires n <= |text|
    ensures text[..n] + text[n..] == text
    ensures n == 1 ==> [text[0]] == text[..1]
  {
  }

  /** Scanning loses nothing. */
  lemma {:induction false} ScanRenders(text: string)
    ensures Render(Scan(text)) == text
    decreases |text|
  {
    if text != "" {
      var n := Match(text);
      var k, piece := if n > 0 then n else 1, if n > 0 then Heap(text[..n]) else Plain(text[0]);
      ScanRenders(text[k..]);
      ScanNext(text);
      RenderCons(piece, Scan(text[k..]));
      Parts(text, k);
    }
  }

  lemma {:induction false} ScannedAreOptions(text: string)
    ensures forall piece | piece in Scan(text) && piece.Heap? :: IsOption(piece.text)
    decreases |text|
  {
    if text != "" {
      var n := Match(text);
      if n > 0 {
        assert text == text[..n] + text[n..];
        MatchCut(text[..n], text[n..]);
        ScannedAreOptions(text[n..]);
      } else {
        ScannedAreOptions(text[1..]);
      }
    }
  }

  // ---------------------------------------------------------------- the heap sizes of an option list

  predicate IsStart(o: string)
    requires |o| >= 4
  {
    o[3] in {'s', 'S'}
  }

  /** The bytes an option asks for; nothing if they do not fit into 64 bits. */
  function BytesOf(o: string): (bytes: Option<nat>)
    requires StartsOption(o)
    ensures bytes.Some? ==> bytes.value <= MAX_INT64
  {
    var d := DigitsEnd(o, 4);
    Product(ValueOf(o[4..d]), if d < |o| then Multiplier(o[d]) else 1)
  }

  /** The bytes a written option asks for; without a unit its number counts bytes. */
  lemma WrittenHasBytes(name: string, digits: string, unit: string)
    requires IsWritten(name, digits, unit)
    ensures StartsOption(name + digits + unit)
    ensures BytesOf(name + digits + unit) == Product(ValueOf(digits), if unit == "" then 1 else Multiplier(unit[0]))
    ensures IsStart(name + digits + unit) <==> name[3] in {'s', 'S'}
  {
    WrittenIsRead(name, digits, unit, "");
    var o := name + digits + unit;
    assert unit != "" ==> o[4 + |digits|] == unit[0];
    assert o[3] == name[3];
  }

  /** `amount * multiplier`, guarded against overflow as the code does. */
  function Product(amount: nat, multiplier: nat): (bytes: Option<nat>)
    requires multiplier >= 1
    ensures bytes.Some? ==> bytes.value == amount * multiplier <= MAX_INT64
    ensures bytes.None? ==> amount * multiplier > MAX_INT64
  {
    GuardIsExact(amount, multiplier);
    if amount > MAX_INT64 / multiplier then None else Some(amount * multiplier)
  }

  /** The guard refuses exactly the products that do not fit. */
  lemma GuardIsExact(amount: nat, multiplier: nat)
    requires multiplier >= 1
    ensures amount > MAX_INT64 / multiplier <==> amount * multiplier > MAX_INT64
  {
    var q := MAX_INT64 / multiplier;
    assert MAX_INT64 == q * multiplier + MAX_INT64 % multiplier;
    if amount > q {
      assert amount * multiplier >= (q + 1) * multiplier;
    } else {
      assert amount * multiplier <= q * multiplier;
    }
  }

  lemma BytesArePositive(o: string)
    requires StartsOption(o) && BytesOf(o).Some?
    ensures BytesOf(o).value > 0
  {
    var d := DigitsEnd(o, 4);
    DigitsEndIsAfter(o);
    assert o[4..d][0] == o[4];
    LeadingDigitIsPositive(o[4..d]);
  }

  datatype Heaps = Bad | Heaps(xms: nat, xmx: nat)

  /** One more option; 0 stands for a size that has not been given yet. */
  function Take(before: Heaps, o: string): Heaps {
    if before.Bad? || !StartsOption(o) || BytesOf(o).None? then Bad
    else if IsStart(o) then (if before.xms != 0 then Bad else before.(xms := BytesOf(o).value))
    else if before.xmx != 0 then Bad else before.(xmx := BytesOf(o).value)
  }

  function Fold(pieces: seq<Piece>): Heaps {
    if pieces == [] then Heaps(0, 0)
    else
      var before, last := Fold(pieces[..|pieces| - 1]), pieces[|pieces| - 1];
      if last.Plain? then before else Take(before, last.text)
  }

  /** `parseJavaHeapBytes`: each size exactly once, or nothing. */
  function ParseHeap(text: string): Heaps {
    var heaps := Fold(Scan(text));
    if heaps.Bad? || heaps.xms == 0 || heaps.xmx == 0 then Bad else heaps
  }

  method ParseJavaHeapBytes(text: string) returns (heaps: Heaps)
    ensures heaps == ParseHeap(text)
  {
    var pieces := Scan(text);
    ScannedAreOptions(text);
    heaps := Heaps(0, 0);
    var i := 0;
    while i < |pieces|
      invariant 0 <= i <= |pieces| && heaps == Fold(pieces[..i]) && heaps.Heaps?
    {
      assert pieces[..i + 1][..i] == pieces[..i];
      if pieces[i].Heap? {
        var o := pieces[i].text;
        assert pieces[i] in pieces && IsOption(o);
        heaps := Take(heaps, o);
        if heaps.Bad? {
          BadStaysBad(pieces, i + 1);
          return;
        }
      }
      i := i + 1;
    }
    assert pieces[..i] == pieces;
    if heaps.xms == 0 || heaps.xmx == 0 {
      heaps := Bad;
    }
  }

  lemma {:induction false} BadStaysBad(pieces: seq<Piece>, i: nat)
    requires i <= |pieces| && Fold(pieces[..i]).Bad?
    ensures Fold(pieces).Bad?
  {
    if i < |pieces| {
      assert pieces[..|pieces| - 1][..i] == pieces[..i];
      BadStaysBad(pieces[..|pieces| - 1], i);
    } else {
      assert pieces[..i] == pieces;
    }
  }

  predicate IsMin(piece: Piece) { piece.Heap? && |piece.text| >= 4 && IsStart(piece.text) }

  predicate IsMax(piece: Piece) { piece.Heap? && !IsMin(piece) }

  predicate IsReadable(piece: Piece) { piece.Heap? ==> StartsOption(piece.text) && BytesOf(piece.text).Some? }

  function MinCount(pieces: seq<Piece>): nat {
    if pieces == [] then 0 else MinCount(pieces[..|pieces| - 1]) + if IsMin(pieces[|pieces| - 1]) then 1 else 0
  }

  function MaxCount(pieces: seq<Piece>): nat {
    if pieces == [] then 0 else MaxCount(pieces[..|pieces| - 1]) + if IsMax(pieces[|pieces| - 1]) then 1 else 0
  }

  /** There are sizes exactly if every option can be read and none is given twice; a size is 0 exactly if its option is
      missing. */
  lemma {:induction false} FoldMeans(pieces: seq<Piece>)
    ensures Fold(pieces).Heaps? <==>
      (forall piece | piece in pieces :: IsReadable(piece)) && MinCount(pieces) <= 1 && MaxCount(pieces) <= 1
    ensures Fold(pieces).Heaps? ==> (Fold(pieces).xms > 0 <==> MinCount(pieces) == 1) && (Fold(pieces).xmx > 0 <==> MaxCount(pieces) == 1)
  {
    if pieces != [] {
      var front, last := pieces[..|pieces| - 1], pieces[|pieces| - 1];
      assert pieces == front + [last];
      FoldMeans(front);
      if IsReadable(last) && last.Heap? {
        BytesArePositive(last.text);
      }
    }
  }

  /** The sizes are those of the options. */
  lemma {:induction false} FoldReads(pieces: seq<Piece>, i: nat)
    requires i < |pieces| && pieces[i].Heap? && Fold(pieces).Heaps?
    ensures StartsOption(pieces[i].text)
    ensures BytesOf(pieces[i].text) == Some(if IsStart(pieces[i].text) then Fold(pieces).xms else Fold(pieces).xmx)
  {
    if i < |pieces| - 1 {
      var front, last := pieces[..|pieces| - 1], pieces[|pieces| - 1];
      FoldReads(front, i);
      assert front[i] == pieces[i];
      BytesArePositive(pieces[i].text);
    }
  }

  /** Both sizes are there, each once, or the text is refused. */
  lemma ParseHeapMeans(text: string)
    ensures Options4(Scan(text))
    ensures ParseHeap(text).Heaps? ==> ParseHeap(text) == Fold(Scan(text)) && ParseHeap(text).xms > 0 && ParseHeap(text).xmx > 0
    ensures ParseHeap(text).Bad? <==> Fold(Scan(text)).Bad? || Fold(Scan(text)).xms == 0 || Fold(Scan(text)).xmx == 0
  {
    ScannedAreOptions(text);
  }

  // ---------------------------------------------------------------- rewriting the sizes

  function NewOption(o: string, heap: string): string
    requires |o| >= 4
  {
    (if IsStart(o) then "-Xms" else "-Xmx") + heap
  }

  /** A heap size that can stand in an option. */
  predicate IsSize(heap: string) {
    IsOption("-Xms" + heap) && IsOption("-Xmx" + heap)
  }

  predicate Options4(pieces: seq<Piece>) {
    forall piece | piece in pieces && piece.Heap? :: IsOption(piece.text)
  }

  function NewPiece(piece: Piece, heap: string): Piece {
    if piece.Heap? && |piece.text| >= 4 then Heap(NewOption(piece.text, heap)) else piece
  }

  /** `ReplaceAllStringFunc`: every option gets the new size, everything else stays. */
  function Rewritten(pieces: seq<Piece>, heap: string): (after: seq<Piece>)
    ensures |after| == |pieces| && forall i | 0 <= i < |pieces| :: after[i] == NewPiece(pieces[i], heap)
  {
    seq(|pieces|, i requires 0 <= i < |pieces| => NewPiece(pieces[i], heap))
  }

  function RewrittenText(text: string, heap: string): string {
    Render(Rewritten(Scan(text), heap))
  }

  lemma RewrittenNext(pieces: seq<Piece>, heap: string)
    requires pieces != []
    ensures Rewritten(pieces, heap)[0] == NewPiece(pieces[0], heap)
    ensures Rewritten(pieces, heap)[1..] == Rewritten(pieces[1..], heap)
  {
  }

  /** The rewritten text of a text that starts with an option, or with anything else. */
  lemma RewrittenTextNext(text: string, heap: string)
    requires text != ""
    ensures var n := Match(text);
      RewrittenText(text, heap) ==
        if n > 0 then NewOption(text[..n], heap) + RewrittenText(text[n..], heap) else [text[0]] + RewrittenText(text[1..], heap)
  {
    var pieces := Scan(text);
    RewrittenNext(pieces, heap);
    var n := Match(text);
    if n > 0 {
      assert pieces[1..] == Scan(text[n..]);
    } else {
      assert pieces[1..] == Scan(text[1..]);
    }
  }

  /** Rewriting keeps the first character: options start with a dash, and so do their replacements. */
  lemma FirstStays(text: string, heap: string)
    ensures text == "" <==> RewrittenText(text, heap) == ""
    ensures text != "" ==> RewrittenText(text, heap)[0] == text[0]
  {
    if text != "" {
      RewrittenTextNext(text, heap);
    }
  }

  /** A text up to its first dash. */
  function BeforeDash(text: string): (head: string)
    ensures head <= text && (|head| == |text| || text[|head|] == '-')
  {
    if text == "" || text[0] == '-' then "" else [text[0]] + BeforeDash(text[1..])
  }

  lemma {:induction false} HeadStays(text: string, heap: string)
    ensures BeforeDash(RewrittenText(text, heap)) == BeforeDash(text)
    decreases |text|
  {
    FirstStays(text, heap);
    if text != "" && text[0] != '-' {
      RewrittenTextNext(text, heap);
      HeadStays(text[1..], heap);
      assert RewrittenText(text, heap)[1..] == RewrittenText(text[1..], heap);
    }
  }

  lemma MatchOfHead(c: char, a: string)
    ensures Match([c] + a) == Match([c] + BeforeDash(a))
  {
    var head := BeforeDash(a);
    assert [c] + a == ([c] + head) + a[|head|..];
    MatchCut([c] + head, a[|head|..]);
  }

  /** Whether an option starts here is settled before the next dash. */
  lemma MatchLooksBeforeDash(c: char, a: string, b: string)
    requires BeforeDash(a) == BeforeDash(b)
    ensures Match([c] + a) == Match([c] + b)
  {
    MatchOfHead(c, a);
    MatchOfHead(c, b);
  }

  lemma ReadsBackFromOption(text: string, heap: string)
    requires IsSize(heap) && text != "" && Match(text) > 0
    requires Scan(RewrittenText(text[Match(text)..], heap)) == Rewritten(Scan(text[Match(text)..]), heap)
    ensures Scan(RewrittenText(text, heap)) == [Heap(NewOption(text[..Match(text)], heap))] + Rewritten(Scan(text[Match(text)..]), heap)
  {
    var n := Match(text);
    var o, rest := NewOption(text[..n], heap), RewrittenText(text[n..], heap);
    RewrittenTextNext(text, heap);
    FirstStays(text[n..], heap);
    MatchCut(o, rest);
    OptionThenRest(o, rest);
  }

  lemma ReadsBackFromChar(text: string, heap: string)
    requires text != "" && Match(text) == 0
    requires Scan(RewrittenText(text[1..], heap)) == Rewritten(Scan(text[1..]), heap)
    ensures Scan(RewrittenText(text, heap)) == [Plain(text[0])] + Rewritten(Scan(text[1..]), heap)
  {
    var rest := RewrittenText(text[1..], heap);
    RewrittenTextNext(text, heap);
    HeadStays(text[1..], heap);
    MatchLooksBeforeDash(text[0], rest, text[1..]);
    assert [text[0]] + text[1..] == text;
    CharThenRest(text[0], rest);
  }

  lemma RewrittenCons(piece: Piece, rest: seq<Piece>, heap: string)
    ensures Rewritten([piece] + rest, heap) == [NewPiece(piece, heap)] + Rewritten(rest, heap)
  {
    var all := [piece] + rest;
    assert all[0] == piece && forall i | 0 < i < |all| :: all[i] == rest[i - 1];
  }

  /** The rewritten text reads back as the rewritten options between the old text. */
  lemma {:induction false} RewrittenReadsBack(text: string, heap: string)
    requires IsSize(heap)
    ensures Scan(RewrittenText(text, heap)) == Rewritten(Scan(text), heap)
    decreases |text|
  {
    if text != "" {
      var n := Match(text);
      ScanNext(text);
      if n > 0 {
        RewrittenReadsBack(text[n..], heap);
        ReadsBackFromOption(text, heap);
        RewrittenCons(Heap(text[..n]), Scan(text[n..]), heap);
      } else {
        RewrittenReadsBack(text[1..], heap);
        ReadsBackFromChar(text, heap);
        RewrittenCons(Plain(text[0]), Scan(text[1..]), heap);
      }
    }
  }

  lemma OptionThenRest(o: string, rest: string)
    requires o != "" && Match(o + rest) == |o|
    ensures Scan(o + rest) == [Heap(o)] + Scan(rest)
  {
    assert (o + rest)[..|o|] == o && (o + rest)[|o|..] == rest;
  }

  lemma CharThenRest(c: char, rest: string)
    requires Match([c] + rest) == 0
    ensures Scan([c] + rest) == [Plain(c)] + Scan(rest)
  {
    assert ([c] + rest)[1..] == rest;
  }

  /** If both sizes could be read, both are the new size afterwards. */
  lemma {:induction false} RewrittenFolds(pieces: seq<Piece>, heap: string, size: nat)
    requires Options4(pieces) && IsSize(heap) && Fold(pieces).Heaps?
    requires BytesOf("-Xms" + heap) == Some(size) && BytesOf("-Xmx" + heap) == Some(size) && size > 0
    ensures var was := Fold(pieces);
      Fold(Rewritten(pieces, heap)) == Heaps(if was.xms == 0 then 0 else size, if was.xmx == 0 then 0 else size)
  {
    if pieces != [] {
      var n := |pieces| - 1;
      var front, last := pieces[..n], pieces[n];
      assert last in pieces;
      assert Rewritten(pieces, heap)[..n] == Rewritten(front, heap);
      RewrittenFolds(front, heap, size);
      if last.Heap? {
        BytesArePositive(last.text);
      }
    }
  }

  // ---------------------------------------------------------------- the new size

  /** `formatJavaHeap` */
  function HeapText(bytes: nat): string {
    if bytes % GIB == 0 then Digits(bytes / GIB) + "g" else Digits(bytes / MIB) + "m"
  }

  /** What is left of a size once it is written in whole gibibytes or mebibytes. */
  function Floored(bytes: nat): nat { bytes / MIB * MIB }

  lemma FlooredBrackets(bytes: nat)
    ensures Floored(bytes) <= bytes < Floored(bytes) + MIB
    ensures bytes % GIB == 0 ==> bytes / GIB * GIB == bytes == Floored(bytes)
  {
    if bytes % GIB == 0 {
      assert bytes == bytes / GIB * GIB;
      assert bytes == (bytes / GIB * 0x400) * MIB;
      assert bytes / MIB == bytes / GIB * 0x400;
    }
  }

  /** Four letters, digits, a unit. */
  lemma SizedOption(prefix: string, digits: string, unit: char)
    requires |prefix| == 4 && prefix[0] == '-' && prefix[1] == 'X' && prefix[2] == 'm' && prefix[3] in {'s', 'x'}
    requires digits != "" && AllDigits(digits) && digits[0] != '0' && IsUnit(unit)
    ensures var o := prefix + digits + [unit];
      StartsOption(o) && DigitsEnd(o, 4) == 4 + |digits| && o[4..4 + |digits|] == digits && o[4 + |digits|] == unit && |o| == 5 + |digits|
  {
    var o := prefix + digits + [unit];
    assert o[4] == digits[0] && IsDigit(digits[0]);
    assert o[4..4 + |digits|] == digits;
    DigitsEndIs(o, 4, 4 + |digits|);
  }

  lemma SizeOption(prefix: string, n: nat, unit: char)
    requires |prefix| == 4 && prefix[0] == '-' && prefix[1] == 'X' && prefix[2] == 'm' && prefix[3] in {'s', 'x'}
    requires n > 0 && IsUnit(unit)
    ensures var o := prefix + (Digits(n) + [unit]);
      IsOption(o) && BytesOf(o) == Product(n, Multiplier(unit))
  {
    var digits := Digits(n);
    DigitsShape(n);
    DigitsReadBack(n);
    SizedOption(prefix, digits, unit);
    assert prefix + (digits + [unit]) == prefix + digits + [unit];
  }

  /** The new size can be read back; it is the old one rounded down to a mebibyte. */
  lemma HeapTextReadsBack(bytes: nat)
    requires MIB <= bytes <= MAX_INT64
    ensures IsSize(HeapText(bytes))
    ensures BytesOf("-Xms" + HeapText(bytes)) == Some(Floored(bytes)) && BytesOf("-Xmx" + HeapText(bytes)) == Some(Floored(bytes))
    ensures 0 < Floored(bytes) <= bytes
  {
    FlooredBrackets(bytes);
    if bytes % GIB == 0 {
      SizeOption("-Xms", bytes / GIB, 'g');
      SizeOption("-Xmx", bytes / GIB, 'g');
    } else {
      SizeOption("-Xms", bytes / MIB, 'm');
      SizeOption("-Xmx", bytes / MIB, 'm');
    }
  }

  // ---------------------------------------------------------------- memory quantities

  predicate IsQuantity(s: string) {
    && s != "" && '1' <= s[0] <= '9'
    && var d := DigitsEnd(s, 0);
      d < |s| && IsUnit(s[d]) && (|s| == d + 1 || (|s| == d + 2 && s[d + 1] in {'i', 'I'}))
  }

  /** `parseMemoryQuantityBytes` */
  function ParseMemory(s: string): (bytes: Option<nat>)
    ensures bytes.Some? ==> bytes.value <= MAX_INT64
  {
    if !IsQuantity(s) then None
    else
      var d := DigitsEnd(s, 0);
      Product(ValueOf(s[..d]), Multiplier(s[d]))
  }

  /** Digits, a unit and perhaps an i are read as the number times the unit, unless that does not fit into 64 bits. */
  lemma QuantityIsRead(digits: string, unit: char, suffix: string)
    requires digits != "" && AllDigits(digits) && digits[0] != '0' && IsUnit(unit) && suffix in {"", "i", "I"}
    ensures ParseMemory(digits + [unit] + suffix) == Product(ValueOf(digits), Multiplier(unit))
  {
    var s, end := digits + [unit] + suffix, |digits|;
    assert s[..end] == digits && s[0..end] == digits && s[0] == digits[0] && s[end] == unit && IsDigit(digits[0]);
    assert suffix != "" ==> s[end + 1] == suffix[0];
    DigitsEndIs(s, 0, end);
  }

  /** Nothing else is read. */
  lemma ReadIsQuantity(s: string) returns (digits: string, unit: char, suffix: string)
    requires ParseMemory(s).Some?
    ensures s == digits + [unit] + suffix && digits != "" && AllDigits(digits) && digits[0] != '0' && IsUnit(unit)
    ensures suffix in {"", "i", "I"}
  {
    var d := DigitsEnd(s, 0);
    digits, unit, suffix := s[0..d], s[d], s[d + 1..];
    if d == 0 {
      assert IsDigit(s[0]);
    }
    assert suffix == "" || suffix == [s[d + 1]];
  }

  lemma TimesOver(n: nat, d: nat)
    requires d > 0
    ensures n * d / d == n && n * d % d == 0
  {
    var q, r := n * d / d, n * d % d;
    assert n * d == q * d + r;
    assert (n - q) * d == n * d - q * d;
    OneFactor(n - q, d, r);
  }

  lemma OneFactor(k: int, d: nat, r: nat)
    requires k * d == r < d
    ensures k == 0 && r == 0
  {
    if k > 0 {
      TimesGrows(1, k, d);
    } else if k < 0 {
      TimesGrows(k, -1, d);
    }
  }

  lemma TimesGrows(a: int, b: int, d: nat)
    requires a <= b
    ensures a * d <= b * d
  {
  }

  /** Whole gibibytes are written as such. */
  lemma HeapTextMeans(n: nat)
    ensures HeapText(n * GIB) == Digits(n) + "g"
    ensures HeapText(n * GIB + MIB) == Digits(n * 1024 + 1) + "m"
  {
    TimesOver(n, GIB);
    TimesOver(n * 1024 + 1, MIB);
    assert n * GIB + MIB == (n * 1024 + 1) * MIB;
    assert (n * GIB + MIB) % GIB == MIB;
  }
}
