/** `normalizeLegacyEFKHeap` of internal/environment/repository.go, against the checks a saved document has to pass. */
module HeapRepair {
  import opened Options
  import opened Documents
  import opened Decimals
  import opened JavaHeap

  // ---------------------------------------------------------------- the settings

  function Elastic(values: Fields): Fields { FieldsOf(Get(values, "elasticsearch")) }

  function Limits(values: Fields): Fields { FieldsOf(Get(FieldsOf(Get(Elastic(values), "resources")), "limits")) }

  predicate HasLimits(values: Fields) {
    && Get(values, "elasticsearch").Object? && Get(Elastic(values), "resources").Object?
    && Get(FieldsOf(Get(Elastic(values), "resources")), "limits").Object?
  }

  function MemoryLimit(values: Fields): Option<nat> {
    ParseMemory(StringValue(Get(Limits(values), "memory")))
  }

  function JavaOpts(values: Fields): string { StringValue(Get(Elastic(values), "javaOpts")) }

  predicate HasNewline(s: string) { '\n' in s || '\r' in s }

  /** Both heap sizes are given once, are the same, and take at most half of the memory. */
  predicate HeapFits(heaps: Heaps, limit: nat) {
    heaps.Heaps? && heaps.xms == heaps.xmx && heaps.xmx <= limit / 2
  }

  /** What the validator of a saved document says about these settings. */
  predicate ValidatorAccepts(values: Fields) {
    && JavaOpts(values) != "" && |JavaOpts(values)| <= 100 && !HasNewline(JavaOpts(values))
    && HasLimits(values) && MemoryLimit(values).Some?
    && HeapFits(ParseHeap(JavaOpts(values)), MemoryLimit(values).value)
  }

  // ---------------------------------------------------------------- the repair

  predicate NeedsRepair(values: Fields) {
    && HasLimits(values) && MemoryLimit(values).Some? && MemoryLimit(values).value >= 2 * MIB
    && ParseHeap(JavaOpts(values)).Heaps?
    && !HeapFits(ParseHeap(JavaOpts(values)), MemoryLimit(values).value)
  }

  function NewOpts(values: Fields): string
    requires MemoryLimit(values).Some?
  {
    RewrittenText(JavaOpts(values), HeapText(MemoryLimit(values).value / 2))
  }

  function Repaired(values: Fields): Fields {
    if !NeedsRepair(values) then values
    else values["elasticsearch" := Object(Elastic(values)["javaOpts" := Text(NewOpts(values))])]
  }

  method NormalizeLegacyEFKHeap(values: Document)
    modifies values
    ensures values.fields == Repaired(old(values.fields))
  {
    if !HasLimits(values.fields) {
      return;
    }
    var limit := MemoryLimit(values.fields);
    if limit.None? || limit.value < 2 * MIB {
      return;
    }
    var opts := JavaOpts(values.fields);
    var heaps := ParseJavaHeapBytes(opts);
    if heaps.Bad? || (heaps.xms == heaps.xmx && heaps.xmx <= limit.value / 2) {
      return;
    }
    var safe := HeapText(limit.value / 2);
    var rewritten := ReplaceOptions(opts, safe);
    values.fields := values.fields["elasticsearch" := Object(Elastic(values.fields)["javaOpts" := Text(rewritten)])];
  }

  /** What one match, or one character between matches, is replaced by. */
  function Replacement(text: string, heap: string): string
    requires text != ""
  {
    if Match(text) > 0 then NewOption(text[..Match(text)], heap) else [text[0]]
  }

  function Consumed(text: string): (n: nat)
    requires text != ""
    ensures 0 < n <= |text|
  {
    if Match(text) > 0 then Match(text) else 1
  }

  lemma ReplacedNext(text: string, heap: string)
    requires text != ""
    ensures RewrittenText(text, heap) == Replacement(text, heap) + RewrittenText(text[Consumed(text)..], heap)
  {
    RewrittenTextNext(text, heap);
  }

  lemma Regrouped(a: string, b: string, c: string)
    ensures (a + b) + c == a + (b + c)
  {
  }

  /** `ReplaceAllStringFunc`, one match after the other. */
  method ReplaceOptions(text: string, heap: string) returns (after: string)
    ensures after == RewrittenText(text, heap)
  {
    after := "";
    var rest := text;
    assert "" + RewrittenText(text, heap) == RewrittenText(text, heap);
    while rest != ""
      invariant after + RewrittenText(rest, heap) == RewrittenText(text, heap)
      decreases |rest|
    {
      ReplacedNext(rest, heap);
      Regrouped(after, Replacement(rest, heap), RewrittenText(rest[Consumed(rest)..], heap));
      after, rest := after + Replacement(rest, heap), rest[Consumed(rest)..];
    }
    assert after + "" == after;
  }

  // ---------------------------------------------------------------- the new text is stored as it is

  function LastOf(s: string): char
    requires s != ""
  {
    s[|s| - 1]
  }

  lemma LastOfSum(a: string, b: string)
    requires a + b != ""
    ensures LastOf(a + b) == if b == "" then LastOf(a) else LastOf(b)
  {
  }

  /** The last character stays, or belongs to the new size. */
  lemma {:induction false} LastStays(text: string, heap: string)
    requires heap != "" && text != ""
    ensures RewrittenText(text, heap) != ""
    ensures LastOf(RewrittenText(text, heap)) == LastOf(text) || LastOf(RewrittenText(text, heap)) == LastOf(heap)
    decreases |text|
  {
    var n := Match(text);
    RewrittenTextNext(text, heap);
    var k := if n > 0 then n else 1;
    var first := if n > 0 then NewOption(text[..n], heap) else [text[0]];
    FirstStays(text[k..], heap);
    LastOfSum(first, RewrittenText(text[k..], heap));
    Parts(text, k);
    LastOfSum(text[..k], text[k..]);
    if text[k..] != "" {
      LastStays(text[k..], heap);
    }
  }

  lemma RewrittenIsTrimmed(text: string, bytes: nat)
    requires Trimmed(text) && text != ""
    ensures Trimmed(RewrittenText(text, HeapText(bytes)))
  {
    FirstStays(text, HeapText(bytes));
    LastStays(text, HeapText(bytes));
    assert !IsSpace('g') && !IsSpace('m');
  }

  /** What is read from the repaired settings. */
  lemma RepairedReads(values: Fields)
    requires NeedsRepair(values)
    ensures var after := Repaired(values);
      && JavaOpts(after) == NewOpts(values) && HasLimits(after) && MemoryLimit(after) == MemoryLimit(values)
  {
    assert "javaOpts"[0] == 'j' && "resources"[0] == 'r';
    RewrittenIsTrimmed(JavaOpts(values), MemoryLimit(values).value / 2);
    assert Elastic(Repaired(values)) == Elastic(values)["javaOpts" := Text(NewOpts(values))];
    assert StringValue(Text(NewOpts(values))) == NewOpts(values);
  }

  // ---------------------------------------------------------------- what the repair achieves

  /** After a rewrite both sizes are the same positive size, at most half of the memory and short of it by less than a
      mebibyte. */
  lemma RepairedFits(values: Fields)
    requires NeedsRepair(values)
    ensures var limit, heaps := MemoryLimit(values).value, ParseHeap(JavaOpts(Repaired(values)));
      && heaps.Heaps? && heaps.xms == heaps.xmx == Floored(limit / 2)
      && 0 < heaps.xmx <= limit / 2 < heaps.xmx + MIB
  {
    var opts, half := JavaOpts(values), MemoryLimit(values).value / 2;
    RepairedReads(values);
    HeapTextReadsBack(half);
    FlooredBrackets(half);
    RewrittenReadsBack(opts, HeapText(half));
    ScannedAreOptions(opts);
    RewrittenFolds(Scan(opts), HeapText(half), Floored(half));
  }

  /** All text between the options stays, and so do the number and the order of the options. */
  lemma OtherTextStays(values: Fields)
    requires NeedsRepair(values)
    ensures var before, after := Scan(JavaOpts(values)), Scan(JavaOpts(Repaired(values)));
      && |after| == |before|
      && (forall i | 0 <= i < |before| :: before[i].Plain? ==> after[i] == before[i])
      && (forall i | 0 <= i < |before| :: before[i].Heap? ==> after[i].Heap?)
  {
    var half := MemoryLimit(values).value / 2;
    RepairedReads(values);
    HeapTextReadsBack(half);
    RewrittenReadsBack(JavaOpts(values), HeapText(half));
  }

  /** A second repair changes nothing. */
  lemma SecondRepairChangesNothing(values: Fields)
    ensures Repaired(Repaired(values)) == Repaired(values)
  {
    if NeedsRepair(values) {
      RepairedReads(values);
      RepairedFits(values);
    }
  }

  /** After the repair the heap fits exactly when the memory limit and both sizes can be read, and the limit is at least
      2 MiB or the heap did fit before. */
  lemma HeapFitsExactly(values: Fields)
    requires HasLimits(values) && MemoryLimit(values).Some?
    ensures HeapFits(ParseHeap(JavaOpts(Repaired(values))), MemoryLimit(values).value) <==>
      && ParseHeap(JavaOpts(values)).Heaps?
      && (MemoryLimit(values).value >= 2 * MIB || HeapFits(ParseHeap(JavaOpts(values)), MemoryLimit(values).value))
  {
    if NeedsRepair(values) {
      RepairedFits(values);
    }
  }

  /** The repair leaves everything alone unless limit and sizes can be read, the limit is at least 2 MiB and the sizes
      differ or take more than half of it; otherwise both are set, and nothing but the options changes. */
  lemma RepairMeans(values: Fields, key: string, part: string)
    ensures var heaps, limit := ParseHeap(JavaOpts(values)), MemoryLimit(values);
      Repaired(values) == values || (
        && HasLimits(values) && limit.Some? && limit.value >= 2 * 1024 * 1024 && heaps.Heaps?
        && (heaps.xms != heaps.xmx || heaps.xmx > limit.value / 2)
        && (key != "elasticsearch" ==> Get(Repaired(values), key) == Get(values, key))
        && (part != "javaOpts" ==> Get(Elastic(Repaired(values)), part) == Get(Elastic(values), part)))
    ensures var heaps, limit := ParseHeap(JavaOpts(values)), MemoryLimit(values);
      HasLimits(values) && limit.Some? && limit.value >= 2 * 1024 * 1024 && heaps.Heaps? ==>
        var after := ParseHeap(JavaOpts(Repaired(values))); after.Heaps? && after.xms == after.xmx <= limit.value / 2
  {
    if NeedsRepair(values) {
      RepairedFits(values);
    }
  }

  /** The checks of the validator on these settings. */
  lemma ValidatorMeans(values: Fields)
    ensures ValidatorAccepts(values) <==>
      && 0 < |JavaOpts(values)| <= 100 && '\n' !in JavaOpts(values) && '\r' !in JavaOpts(values)
      && HasLimits(values) && MemoryLimit(values).Some? && ParseHeap(JavaOpts(values)).Heaps?
      && ParseHeap(JavaOpts(values)).xms == ParseHeap(JavaOpts(values)).xmx <= MemoryLimit(values).value / 2
  {
  }

  lemma NoNewlineInSize(bytes: nat)
    ensures !HasNewline(HeapText(bytes))
  {
    NoNewlineInDigits(bytes / GIB);
    NoNewlineInDigits(bytes / MIB);
  }

  lemma NoNewlineInDigits(n: nat)
    ensures !HasNewline(Digits(n))
  {
    DigitsReadBack(n);
    assert AllDigits(Digits(n));
  }

  lemma NoNewlineInOption(o: string)
    requires StartsOption(o) && OptionEnd(o) == |o|
    ensures !HasNewline(o)
  {
    var d := DigitsEnd(o, 4);
    forall i | 0 <= i < |o| ensures o[i] != '\n' && o[i] != '\r' {
      if 4 <= i < d {
        assert IsDigit(o[4..d][i - 4]);
      }
    }
  }

  lemma NoNewlineInMatch(text: string)
    requires Match(text) > 0
    ensures !HasNewline(text[..Match(text)])
  {
    var n := Match(text);
    assert text == text[..n] + text[n..];
    MatchCut(text[..n], text[n..]);
    NoNewlineInOption(text[..n]);
  }

  lemma NewlineInParts(a: string, b: string)
    ensures HasNewline(a + b) <==> HasNewline(a) || HasNewline(b)
  {
  }

  lemma NoNewlineInNewOption(o: string, heap: string)
    requires |o| >= 4 && !HasNewline(heap)
    ensures !HasNewline(NewOption(o, heap))
  {
    NewlineInParts(if IsStart(o) then "-Xms" else "-Xmx", heap);
  }

  /** A rewrite neither adds nor removes line breaks. */
  lemma {:induction false} NewlinesStay(text: string, heap: string)
    requires !HasNewline(heap)
    ensures HasNewline(RewrittenText(text, heap)) <==> HasNewline(text)
    decreases |text|
  {
    if text == "" {
      FirstStays(text, heap);
    } else {
      var n := Match(text);
      var k := if n > 0 then n else 1;
      NewlinesStay(text[k..], heap);
      NewlineInParts(text[..k], text[k..]);
      Parts(text, k);
      RewrittenTextNext(text, heap);
      if n > 0 {
        NoNewlineInMatch(text);
        NoNewlineInNewOption(text[..n], heap);
        NewlineInParts(NewOption(text[..n], heap), RewrittenText(text[n..], heap));
      } else {
        NewlineInParts([text[0]], RewrittenText(text[1..], heap));
      }
    }
  }

  // ---------------------------------------------------------------- the length of the new text

  /** The characters of the options in a text. */
  function OptionsLength(pieces: seq<Piece>): nat {
    if pieces == [] then 0
    else OptionsLength(pieces[1..]) + if pieces[0].Heap? then |pieces[0].text| else 0
  }

  function OptionCount(pieces: seq<Piece>): nat {
    if pieces == [] then 0 else OptionCount(pieces[1..]) + if pieces[0].Heap? then 1 else 0
  }

  lemma NewLength(piece: Piece, after: seq<Piece>, heap: string)
    requires piece.Heap? ==> |piece.text| >= 4
    ensures |Render([NewPiece(piece, heap)] + after)| == |Render(after)| + if piece.Heap? then 4 + |heap| else 1
  {
    RenderCons(NewPiece(piece, heap), after);
  }

  /** The characters of as many options of one length. */
  function OptionsOfLength(pieces: seq<Piece>, length: nat): nat {
    if pieces == [] then 0 else OptionsOfLength(pieces[1..], length) + if pieces[0].Heap? then length else 0
  }

  lemma {:induction false} CountTimesLength(pieces: seq<Piece>, length: nat)
    ensures OptionsOfLength(pieces, length) == OptionCount(pieces) * length
    decreases |pieces|
  {
    if pieces != [] {
      CountTimesLength(pieces[1..], length);
    }
  }

  lemma {:induction false} RewrittenLength(pieces: seq<Piece>, heap: string)
    requires Options4(pieces)
    ensures |Render(Rewritten(pieces, heap))| == |Render(pieces)| - OptionsLength(pieces) + OptionsOfLength(pieces, 4 + |heap|)
    decreases |pieces|
  {
    if pieces != [] {
      var piece, rest := pieces[0], pieces[1..];
      assert piece in pieces && pieces == [piece] + rest;
      RewrittenLength(rest, heap);
      RewrittenCons(piece, rest, heap);
      RenderCons(piece, rest);
      NewLength(piece, Rewritten(rest, heap), heap);
    }
  }

  lemma {:induction false} LengthOfSum(a: seq<Piece>, b: seq<Piece>)
    ensures OptionsLength(a + b) == OptionsLength(a) + OptionsLength(b)
  {
    if a == [] {
      assert a + b == b;
    } else {
      assert (a + b)[1..] == a[1..] + b;
      LengthOfSum(a[1..], b);
    }
  }

  lemma {:induction false} CountOfSum(a: seq<Piece>, b: seq<Piece>)
    ensures OptionCount(a + b) == OptionCount(a) + OptionCount(b)
  {
    if a == [] {
      assert a + b == b;
    } else {
      assert (a + b)[1..] == a[1..] + b;
      CountOfSum(a[1..], b);
    }
  }

  /** Each size that was read stands for one option. */
  lemma {:induction false} FoldCounts(pieces: seq<Piece>)
    requires Options4(pieces) && Fold(pieces).Heaps?
    ensures OptionCount(pieces) == (if Fold(pieces).xms == 0 then 0 else 1) + if Fold(pieces).xmx == 0 then 0 else 1
    decreases |pieces|
  {
    if pieces != [] {
      var front, last := pieces[..|pieces| - 1], pieces[|pieces| - 1];
      assert pieces == front + [last] && last in pieces;
      CountOfSum(front, [last]);
      FoldCounts(front);
      if last.Heap? {
        BytesArePositive(last.text);
      }
    }
  }

  /** What the repair makes of the length: the two old options go, two of four characters and the new size come. */
  function RepairedLength(opts: string, heap: string): int {
    |opts| - OptionsLength(Scan(opts)) + 2 * (4 + |heap|)
  }

  lemma LengthAfterRepair(opts: string, heap: string)
    requires ParseHeap(opts).Heaps?
    ensures |RewrittenText(opts, heap)| == RepairedLength(opts, heap)
  {
    ScannedAreOptions(opts);
    ScanRenders(opts);
    FoldCounts(Scan(opts));
    RewrittenLength(Scan(opts), heap);
    CountTimesLength(Scan(opts), 4 + |heap|);
  }

  /** What was rewritten is accepted by the validator exactly when the old text has no line break and, with its two
      options exchanged for the new ones, not more than 100 characters. */
  lemma RepairMeetsValidatorExactly(values: Fields)
    requires NeedsRepair(values)
    ensures ValidatorAccepts(Repaired(values)) <==>
      && !HasNewline(JavaOpts(values))
      && |JavaOpts(values)| - OptionsLength(Scan(JavaOpts(values))) + 2 * (4 + |HeapText(MemoryLimit(values).value / 2)|) <= 100
  {
    var half := MemoryLimit(values).value / 2;
    RepairedReads(values);
    RepairedFits(values);
    NoNewlineInSize(half);
    NewlinesStay(JavaOpts(values), HeapText(half));
    FirstStays(JavaOpts(values), HeapText(half));
    LengthAfterRepair(JavaOpts(values), HeapText(half));
  }

  // ---------------------------------------------------------------- an input whose repair is refused

  lemma {:induction false} PlainText(text: string)
    requires forall i | 0 <= i < |text| :: text[i] != '-'
    ensures forall piece | piece in Scan(text) :: piece.Plain?
    decreases |text|
  {
    if text != "" {
      assert Match(text) == 0;
      PlainText(text[1..]);
    }
  }

  lemma {:induction false} PlainFolds(front: seq<Piece>, rest: seq<Piece>)
    requires forall piece | piece in rest :: piece.Plain?
    ensures Fold(front + rest) == Fold(front)
    decreases |rest|
  {
    if rest == [] {
      assert front + rest == front;
    } else {
      var n := |rest| - 1;
      assert (front + rest)[..|front + rest| - 1] == front + rest[..n];
      assert rest[n] in rest;
      PlainFolds(front, rest[..n]);
    }
  }

  lemma {:induction false} PlainLength(rest: seq<Piece>)
    requires forall piece | piece in rest :: piece.Plain?
    ensures OptionsLength(rest) == 0
    decreases |rest|
  {
    if rest != [] {
      assert rest[0] in rest;
      PlainLength(rest[1..]);
    }
  }

  /** The gibibyte options of the witness. */
  lemma OneAndTwo()
    ensures IsOption("-Xms1g") && BytesOf("-Xms1g") == Some(GIB)
    ensures IsOption("-Xmx2g") && BytesOf("-Xmx2g") == Some(2 * GIB)
  {
    SizeOption("-Xms", 1, 'g');
    SizeOption("-Xmx", 2, 'g');
    assert "-Xms" + (Digits(1) + ['g']) == "-Xms1g" && "-Xmx" + (Digits(2) + ['g']) == "-Xmx2g";
  }

  function WitnessText(tail: string): string { "-Xms1g" + (" " + ("-Xmx2g" + (" " + tail))) }

  const WITNESS_FRONT: seq<Piece> := [Heap("-Xms1g"), Plain(' '), Heap("-Xmx2g"), Plain(' ')]

  /** An option with a blank behind it. */
  lemma ScanOfOption(o: string, rest: string)
    requires IsOption(o)
    ensures Scan(o + (" " + rest)) == [Heap(o), Plain(' ')] + Scan(rest)
  {
    var tail := " " + rest;
    assert tail == [' '] + rest && Match(tail) == 0;
    CharThenRest(' ', rest);
    MatchCut(o, tail);
    OptionThenRest(o, tail);
    assert [Heap(o)] + ([Plain(' ')] + Scan(rest)) == [Heap(o), Plain(' ')] + Scan(rest);
  }

  lemma JoinFour<T>(a: T, b: T, c: T, d: T, rest: seq<T>)
    ensures [a, b] + ([c, d] + rest) == [a, b, c, d] + rest
  {
  }

  lemma ScanOfWitness(tail: string)
    ensures Scan(WitnessText(tail)) == WITNESS_FRONT + Scan(tail)
  {
    OneAndTwo();
    ScanOfOption("-Xmx2g", tail);
    ScanOfOption("-Xms1g", "-Xmx2g" + (" " + tail));
    JoinFour(Heap("-Xms1g"), Plain(' '), Heap("-Xmx2g"), Plain(' '), Scan(tail));
  }

  lemma WitnessReads(tail: string)
    requires forall i | 0 <= i < |tail| :: 'a' <= tail[i] <= 'z'
    ensures ParseHeap(WitnessText(tail)) == Heaps(GIB, 2 * GIB) && OptionsLength(Scan(WitnessText(tail))) == 12
  {
    ScanOfWitness(tail);
    PlainText(tail);
    PlainFolds(WITNESS_FRONT, Scan(tail));
    PlainLength(Scan(tail));
    LengthOfSum(WITNESS_FRONT, Scan(tail));
    WitnessFolds();
  }

  lemma WitnessFolds()
    ensures Fold(WITNESS_FRONT) == Heaps(GIB, 2 * GIB) && OptionsLength(WITNESS_FRONT) == 12
  {
    OneAndTwo();
    var pieces := WITNESS_FRONT;
    assert pieces[..3] == [Heap("-Xms1g"), Plain(' '), Heap("-Xmx2g")];
    assert pieces[..3][..2] == [Heap("-Xms1g"), Plain(' ')] && pieces[..2][..1] == [Heap("-Xms1g")];
    LengthOfSum([Heap("-Xms1g"), Plain(' ')], [Heap("-Xmx2g"), Plain(' ')]);
    assert pieces == [Heap("-Xms1g"), Plain(' ')] + [Heap("-Xmx2g"), Plain(' ')];
    assert Fold([Heap("-Xms1g")]) == Heaps(GIB, 0);
    assert Fold(pieces[..2]) == Heaps(GIB, 0);
    assert Fold(pieces[..3]) == Heaps(GIB, 2 * GIB);
  }

  lemma ThreeGibibytes()
    ensures ParseMemory("3Gi") == Some(3 * GIB) && HeapText(3 * GIB / 2) == "1536m"
  {
    var s := "3Gi";
    assert s[0..1] == "3" && ValueOf("3") == 3;
    DigitsEndIs(s, 0, 1);
    assert Digits(1) == "1" && Digits(15) == "15" && Digits(153) == "153" && Digits(1536) == "1536";
  }

  /** Options of exactly 100 characters, the most the validator allows, with two gibibyte sizes and a limit of 3Gi: the
      repair makes them 106 characters long, and the validator refuses them. */
  lemma RepairCanBeRefused(tail: string)
    requires |tail| == 86 && forall i | 0 <= i < 86 :: 'a' <= tail[i] <= 'z'
    ensures var opts := WitnessText(tail);
      var values: Fields := map["elasticsearch" := Object(map["javaOpts" := Text(opts),
        "resources" := Object(map["limits" := Object(map["memory" := Text("3Gi")])])])];
      && |JavaOpts(values)| == 100 && NeedsRepair(values)
      && |JavaOpts(Repaired(values))| == 106 && !ValidatorAccepts(Repaired(values))
  {
    var opts := WitnessText(tail);
    var values: Fields := map["elasticsearch" := Object(map["javaOpts" := Text(opts),
      "resources" := Object(map["limits" := Object(map["memory" := Text("3Gi")])])])];
    WitnessReads(tail);
    ThreeGibibytes();
    WitnessFields(opts, values);
    LengthAfterRepair(opts, "1536m");
    RepairedReads(values);
  }

  lemma WitnessFields(opts: string, values: Fields)
    requires Trimmed(opts)
    requires values == map["elasticsearch" := Object(map["javaOpts" := Text(opts),
      "resources" := Object(map["limits" := Object(map["memory" := Text("3Gi")])])])]
    ensures JavaOpts(values) == opts && HasLimits(values) && MemoryLimit(values) == Some(3 * GIB)
  {
    assert "javaOpts"[0] == 'j' && "resources"[0] == 'r';
    ThreeGibibytes();
    assert Trimmed("3Gi");
    assert FieldsOf(Get(Elastic(values), "resources")) == map["limits" := Object(map["memory" := Text("3Gi")])];
    assert Limits(values) == map["memory" := Text("3Gi")];
  }
}
