/** Environment documents: decoded JSON trees, and the tolerant readers of internal/environment/repository.go. */
module Documents {
  datatype Value =
    | Null
    | Bool(flag: bool)
    | Number(n: int)
    | Fraction(r: real)
    | Text(s: string)
    | List(items: seq<Value>)
    | Object(fields: Fields)

  type Fields = map<string, Value>

  /** The Go map of a document, which the operations of the package change in place. */
  class Document {
    var fields: Fields

    constructor (fields: Fields)
      ensures this.fields == fields
    {
      this.fields := fields;
    }
  }

  // ---------------------------------------------------------------- white space

  predicate IsSpace(c: char) {
    || c in {'\t', '\n', '\U{0B}', '\U{0C}', '\r', ' ', '\U{85}', '\U{A0}', '\U{1680}'}
    || '\U{2000}' <= c <= '\U{200A}'
    || c in {'\U{2028}', '\U{2029}', '\U{202F}', '\U{205F}', '\U{3000}'}
  }

  /** The blanks, by their code points. */
  lemma BlanksAre(c: char)
    ensures IsSpace(c) <==>
      || c as int in {9, 10, 11, 12, 13, 32, 133, 160, 5760, 8232, 8233, 8239, 8287, 12288}
      || 8192 <= c as int <= 8202
  {
  }

  function TrimLeft(s: string): (t: string)
    ensures t == "" || !IsSpace(t[0])
    ensures |t| <= |s|
  {
    if s == "" || !IsSpace(s[0]) then s else TrimLeft(s[1..])
  }

  function TrimRight(s: string): (t: string)
    ensures t <= s && (t == "" || !IsSpace(t[|t| - 1]))
  {
    if s == "" || !IsSpace(s[|s| - 1]) then s else TrimRight(s[..|s| - 1])
  }

  predicate Trimmed(s: string) {
    s == "" || (!IsSpace(s[0]) && !IsSpace(s[|s| - 1]))
  }

  function Trim(s: string): (t: string)
    ensures Trimmed(t)
    ensures Trimmed(s) ==> t == s
  {
    TrimRight(TrimLeft(s))
  }

  function LowerChar(c: char): char {
    if 'A' <= c <= 'Z' then (c as int - 'A' as int + 'a' as int) as char else c
  }

  function Lower(s: string): (t: string)
    ensures |t| == |s| && forall i | 0 <= i < |s| :: t[i] == LowerChar(s[i])
  {
    if s == "" then "" else [LowerChar(s[0])] + Lower(s[1..])
  }

  lemma LowerCharSettles(c: char)
    ensures LowerChar(LowerChar(c)) == LowerChar(c)
    ensures IsSpace(LowerChar(c)) ==> IsSpace(c)
  {
  }

  lemma LowerSettles(t: string)
    requires Trimmed(t)
    ensures Trimmed(Lower(t)) && Lower(Lower(t)) == Lower(t)
  {
    forall i | 0 <= i < |t| ensures Lower(Lower(t))[i] == Lower(t)[i] {
      LowerCharSettles(t[i]);
    }
    if t != "" {
      LowerCharSettles(t[0]);
      LowerCharSettles(t[|t| - 1]);
    }
  }

  function UpperChar(c: char): char {
    if 'a' <= c <= 'z' then (c as int - 'a' as int + 'A' as int) as char else c
  }

  function Upper(s: string): (t: string)
    ensures |t| == |s| && forall i | 0 <= i < |s| :: t[i] == UpperChar(s[i])
  {
    if s == "" then "" else [UpperChar(s[0])] + Upper(s[1..])
  }

  /** The letters are those of ASCII, nothing else has two cases; printable ASCII is no white space. */
  lemma Alphabet(c: char)
    ensures forall i: nat | i < 26 ::
      && LowerChar("ABCDEFGHIJKLMNOPQRSTUVWXYZ"[i]) == "abcdefghijklmnopqrstuvwxyz"[i]
      && UpperChar("abcdefghijklmnopqrstuvwxyz"[i]) == "ABCDEFGHIJKLMNOPQRSTUVWXYZ"[i]
    ensures LowerChar(c) != c ==> 'A' <= c <= 'Z'
    ensures UpperChar(c) != c ==> 'a' <= c <= 'z'
    ensures IsSpace(' ') && IsSpace('\t') && IsSpace('\r') && IsSpace('\n') && ('!' <= c <= '~' ==> !IsSpace(c))
  {
  }

  /** Trimming removes white space at both ends and nothing else. */
  lemma TrimIsTheMiddle(s: string) returns (i: nat, j: nat)
    ensures i <= j <= |s| && Trim(s) == s[i..j]
    ensures forall k | 0 <= k < i || j <= k < |s| :: IsSpace(s[k])
  {
    i := LeftEnd(s);
    j := RightEnd(s[i..]);
    assert forall k | 0 <= k < |s| - i :: s[i..][k] == s[i + k];
    assert s[i..][..j] == s[i..i + j];
    j := i + j;
  }

  lemma {:induction false} LeftEnd(s: string) returns (i: nat)
    ensures i <= |s| && TrimLeft(s) == s[i..] && forall k | 0 <= k < i :: IsSpace(s[k])
  {
    if s == "" || !IsSpace(s[0]) {
      i := 0;
    } else {
      i := LeftEnd(s[1..]);
      assert s[1..][i..] == s[i + 1..] && forall k | 0 < k <= i :: s[k] == s[1..][k - 1];
      i := i + 1;
    }
  }

  lemma {:induction false} RightEnd(s: string) returns (j: nat)
    ensures j <= |s| && TrimRight(s) == s[..j] && forall k | j <= k < |s| :: IsSpace(s[k])
  {
    if s == "" || !IsSpace(s[|s| - 1]) {
      j := |s|;
    } else {
      j := RightEnd(s[..|s| - 1]);
      assert s[..|s| - 1][..j] == s[..j] && forall k | j <= k < |s| - 1 :: s[k] == s[..|s| - 1][k];
    }
  }

  // ---------------------------------------------------------------- readers

  /** The value under a key; a missing key reads like null. */
  function Get(fields: Fields, key: string): Value {
    if key in fields then fields[key] else Null
  }

  /** The text of a value without its outer white space; anything that is no text reads as "". */
  function StringValue(value: Value): (s: string)
    ensures Trimmed(s)
  {
    if value.Text? then Trim(value.s) else ""
  }

  function BoolValue(value: Value): bool { value.Bool? && value.flag }

  function IntValue(value: Value): int {
    match value
    case Number(n) => n
    case Fraction(r) => if r.Floor as real == r then r.Floor else -1
    case _ => -1
  }

  /** The fields of an object; anything else has none. */
  function FieldsOf(value: Value): Fields {
    if value.Object? then value.fields else map[]
  }

  // ---------------------------------------------------------------- sections

  predicate HasSection(fields: Fields, key: string) { Get(fields, key).Object? }

  function Section(fields: Fields, key: string): Fields { FieldsOf(Get(fields, key)) }

  function WithSection(fields: Fields, key: string, section: Fields): Fields { fields[key := Object(section)] }

  const EKS := "eks"
  const NODE_GROUPS := "node_groups"

  predicate HasNodeGroups(doc: Fields) { HasSection(doc, EKS) && HasSection(Section(doc, EKS), NODE_GROUPS) }

  function NodeGroups(doc: Fields): Fields { Section(Section(doc, EKS), NODE_GROUPS) }

  function WithNodeGroups(doc: Fields, groups: Fields): Fields {
    WithSection(doc, EKS, WithSection(Section(doc, EKS), NODE_GROUPS, groups))
  }

  /** The node groups are the object under eks.node_groups, and writing them changes nothing else. */
  lemma NodeGroupsAre(doc: Fields, groups: Fields, key: string, part: string)
    ensures HasNodeGroups(doc) <==>
      "eks" in doc && doc["eks"].Object? && "node_groups" in doc["eks"].fields && doc["eks"].fields["node_groups"].Object?
    ensures HasNodeGroups(doc) ==> NodeGroups(doc) == doc["eks"].fields["node_groups"].fields
    ensures HasNodeGroups(WithNodeGroups(doc, groups)) && NodeGroups(WithNodeGroups(doc, groups)) == groups
    ensures key != "eks" ==> Get(WithNodeGroups(doc, groups), key) == Get(doc, key)
    ensures part != "node_groups" ==> Get(Section(WithNodeGroups(doc, groups), "eks"), part) == Get(Section(doc, "eks"), part)
  {
  }

  /** A number is read as it is if it is whole; everything else reads as -1. */
  lemma IntMeans(value: Value, n: int)
    ensures IntValue(Number(n)) == n && IntValue(Fraction(n as real)) == n
    ensures IntValue(value) != -1 ==> value == Number(IntValue(value)) || value == Fraction(IntValue(value) as real)
  {
  }
}
