/** JSON values as the core library stores them, and their canonical text. */
module JsonValues {

  /** A byte is a `char`; nothing below depends on bytes ending at 255. */
  datatype Value =
    | Null
    | Bool(flag: bool)
    | I64(signed: int)
    | U64(unsigned: nat)
    | Number(token: string)
    | Str(text: string)
    | Arr(items: seq<Value>)
    | Obj(members: seq<Member>)   // in ascending key order, as an ordered map iterates

  datatype Member = Member(key: string, value: Value)

  const I64_MIN := -0x8000_0000_0000_0000
  const U64_MAX := 0xFFFF_FFFF_FFFF_FFFF

  predicate IsDigit(c: char) { '0' <= c <= '9' }

  predicate IsSpace(c: char) { c == ' ' || c == '\n' || c == '\r' || c == '\t' }

  /** Byte-wise lexicographic order of keys. */
  predicate KeyLess(a: string, b: string) {
    if b == "" then false else if a == "" then true else a[0] < b[0] || (a[0] == b[0] && KeyLess(a[1..], b[1..]))
  }

  ghost predicate FirstDifference(a: string, b: string, k: nat) { k < |a| && k < |b| && a[..k] == b[..k] && a[k] < b[k] }

  /** A key comes before those it is a proper prefix of, and before those with a greater byte where they first differ. */
  lemma {:induction false} KeyOrder(a: string, b: string)
    ensures KeyLess(a, b) <==> a < b || exists k: nat :: FirstDifference(a, b, k)
  {
    if a != "" && b != "" {
      KeyOrder(a[1..], b[1..]);
      if a[0] == b[0] {
        SameFirst(a, b);
      } else {
        assert a[0] < b[0] ==> FirstDifference(a, b, 0);
        forall k: nat | FirstDifference(a, b, k)
          ensures k == 0
        {
          AgreeFirst(a, b, k);
        }
      }
    }
  }

  lemma AgreeFirst(a: string, b: string, k: nat)
    requires FirstDifference(a, b, k)
    ensures k == 0 || a[0] == b[0]
  {
    if k > 0 {
      assert a[0] == a[..k][0] && b[0] == b[..k][0];
    }
  }

  lemma SameFirst(a: string, b: string)
    requires a != "" && b != "" && a[0] == b[0]
    ensures a < b <==> a[1..] < b[1..]
    ensures (exists k: nat :: FirstDifference(a, b, k)) <==> exists k: nat :: FirstDifference(a[1..], b[1..], k)
  {
    assert a == [a[0]] + a[1..] && b == [b[0]] + b[1..];
    if k: nat :| FirstDifference(a, b, k) {
      assert a[..k][1..] == a[1..][..k - 1] && b[..k][1..] == b[1..][..k - 1];
      assert FirstDifference(a[1..], b[1..], k - 1);
    }
    if k: nat :| FirstDifference(a[1..], b[1..], k) {
      assert a[..k + 1] == [a[0]] + a[1..][..k] && b[..k + 1] == [b[0]] + b[1..][..k];
      assert FirstDifference(a, b, k + 1);
    }
  }

  predicate HasKey(members: seq<Member>, key: string) {
    exists k :: 0 <= k < |members| && members[k].key == key
  }

  ghost predicate Ascending(members: seq<Member>) {
    forall j, k :: 0 <= j < k < |members| ==> KeyLess(members[j].key, members[k].key)
  }

  /** Insertion into the ordered map. */
  function Insert(members: seq<Member>, m: Member): seq<Member> {
    if members == [] || KeyLess(m.key, members[0].key) then [m] + members
    else [members[0]] + Insert(members[1..], m)
  }

  // Decimal and hexadecimal digits

  function Digit(d: nat): char
    requires d < 10
  {
    '0' + d as char
  }

  function HexDigit(d: nat): char
    requires d < 16
  {
    if d < 10 then '0' + d as char else 'a' + (d - 10) as char
  }

  function Decimal(n: nat): (t: string)
    ensures t != "" && forall k :: 0 <= k < |t| ==> IsDigit(t[k])
    ensures t[0] == '0' ==> n == 0 && t == "0"
  {
    if n < 10 then [Digit(n)] else Decimal(n / 10) + [Digit(n % 10)]
  }

  function DecimalSigned(i: int): string {
    if i < 0 then "-" + Decimal(-i) else Decimal(i)
  }

  /** The number that a run of digits denotes. */
  function DigitsValue(t: string): nat
    requires forall k :: 0 <= k < |t| ==> IsDigit(t[k])
  {
    if t == "" then 0
    else
      assert IsDigit(t[|t| - 1]);
      10 * DigitsValue(t[..|t| - 1]) + (t[|t| - 1] as int - '0' as int)
  }

  lemma {:induction false} DecimalDenotes(n: nat)
    ensures DigitsValue(Decimal(n)) == n
  {
    if n < 10 {
      assert Decimal(n)[..0] == "";
    } else {
      DecimalDenotes(n / 10);
      assert Decimal(n)[..|Decimal(n)| - 1] == Decimal(n / 10);
    }
  }

  // The canonical printer

  function EscapeChar(c: char): (e: string)
    ensures e != ""
  {
    match c
    case '"' => "\\\""
    case '\\' => "\\\\"
    case '\U{0008}' => "\\b"
    case '\U{000c}' => "\\f"
    case '\n' => "\\n"
    case '\r' => "\\r"
    case '\t' => "\\t"
    case _ =>
      if c < ' ' then "\\u00" + [HexDigit(c as int / 16), HexDigit(c as int % 16)] else [c]
  }

  /** The escaped text from `k` on, with the closing quote. */
  function EscapedFrom(t: string, k: nat): string
    requires k <= |t|
    decreases |t| - k
  {
    if k == |t| then "\"" else EscapeChar(t[k]) + EscapedFrom(t, k + 1)
  }

  function Quoted(t: string): string { "\"" + EscapedFrom(t, 0) }

  function Print(v: Value): (t: string)
    decreases v, 1, 0
  {
    match v
    case Null => "null"
    case Bool(flag) => if flag then "true" else "false"
    case I64(i) => DecimalSigned(i)
    case U64(n) => Decimal(n)
    case Number(token) => token
    case Str(text) => Quoted(text)
    case Arr(_) => "[" + ItemsFrom(v, 0)
    case Obj(_) => "{" + MembersFrom(v, 0)
  }

  /** What is printed of an array from item `k` on, with the separator before it and the closing bracket. */
  function ItemsFrom(v: Value, k: nat): string
    requires v.Arr? && k <= |v.items|
    decreases v, 0, |v.items| - k
  {
    if k == |v.items| then "]" else (if k == 0 then "" else ",") + (Print(v.items[k]) + ItemsFrom(v, k + 1))
  }

  function MembersFrom(v: Value, k: nat): string
    requires v.Obj? && k <= |v.members|
    decreases v, 0, |v.members| - k
  {
    if k == |v.members| then "}"
    else
      var m := v.members[k];
      (if k == 0 then "" else ",") + (Quoted(m.key) + (":" + (Print(m.value) + MembersFrom(v, k + 1))))
  }

  /** The printer as the source runs it, appending to one buffer. */
  class Printer {
    var output: string

    constructor ()
      ensures output == ""
    {
      output := "";
    }

    method AppendEscaped(text: string)
      modifies this
      ensures output == old(output) + Quoted(text)
    {
      output := output + "\"";
      for k := 0 to |text|
        invariant output + EscapedFrom(text, k) == old(output) + Quoted(text)
      {
        AppendFirst(output, EscapeChar(text[k]), EscapedFrom(text, k + 1));
        output := output + EscapeChar(text[k]);
      }
      output := output + "\"";
    }

    method AppendCanonical(v: Value)
      modifies this
      ensures output == old(output) + Print(v)
      decreases v, 1
    {
      match v
      case Null => output := output + "null";
      case Bool(flag) => output := output + if flag then "true" else "false";
      case I64(i) => output := output + DecimalSigned(i);
      case U64(n) => output := output + Decimal(n);
      case Number(token) => output := output + token;
      case Str(text) => AppendEscaped(text);
      case Arr(_) => AppendArray(v);
      case Obj(_) => AppendObject(v);
    }

    method AppendArray(v: Value)
      requires v.Arr?
      modifies this
      ensures output == old(output) + Print(v)
      decreases v, 0
    {
      hide Decimal, DecimalSigned, Quoted;
      var items := v.items;
      output := output + "[";
      for k := 0 to |items|
        invariant output + ItemsFrom(v, k) == old(output) + Print(v)
      {
        ghost var rest := ItemsFrom(v, k + 1);
        AppendFirst(output, if k == 0 then "" else ",", Print(items[k]) + rest);
        if k != 0 {
          output := output + ",";
        }
        AppendFirst(output, Print(items[k]), rest);
        AppendCanonical(items[k]);
      }
      output := output + "]";
    }

    method AppendObject(v: Value)
      requires v.Obj?
      modifies this
      ensures output == old(output) + Print(v)
      decreases v, 0
    {
      hide Decimal, DecimalSigned, Quoted;
      var members := v.members;
      output := output + "{";
      for k := 0 to |members|
        invariant output + MembersFrom(v, k) == old(output) + Print(v)
      {
        var m := members[k];
        ghost var rest := Print(m.value) + MembersFrom(v, k + 1);
        AppendFirst(output, if k == 0 then "" else ",", Quoted(m.key) + (":" + rest));
        if k != 0 {
          output := output + ",";
        }
        AppendFirst(output, Quoted(m.key), ":" + rest);
        AppendEscaped(m.key);
        AppendFirst(output, ":", rest);
        output := output + ":";
        AppendFirst(output, Print(m.value), MembersFrom(v, k + 1));
        AppendCanonical(m.value);
      }
      output := output + "}";
    }
  }

  lemma AppendFirst(a: string, b: string, c: string)
    ensures a + (b + c) == (a + b) + c
  {}

  // Which values a parse can produce, and when two of them are the same

  predicate IsInt(t: string) {
    t != "" && (forall k :: 0 <= k < |t| ==> IsDigit(t[k])) && (t[0] == '0' ==> |t| == 1)
  }

  predicate IsDigits(t: string) { t != "" && forall k :: 0 <= k < |t| ==> IsDigit(t[k]) }

  predicate IsFraction(t: string) { t == "" || (t[0] == '.' && IsDigits(t[1..])) }

  predicate IsExponent(t: string) {
    t == "" || (|t| > 1 && (t[0] == 'e' || t[0] == 'E') &&
                IsDigits(if t[1] == '+' || t[1] == '-' then t[2..] else t[1..]))
  }

  /** The grammar of RFC 8259 section 6 for numbers that have a fraction or an exponent. */
  predicate NumberParts(sign: string, whole: string, fraction: string, exponent: string) {
    (sign == "" || sign == "-") && IsInt(whole) && IsFraction(fraction) && IsExponent(exponent) &&
    fraction + exponent != ""
  }

  ghost predicate IsNumberToken(t: string) {
    exists sign, whole, fraction, exponent ::
      NumberParts(sign, whole, fraction, exponent) && t == sign + whole + fraction + exponent
  }

  ghost predicate WellFormed(v: Value) {
    match v
    case I64(i) => I64_MIN <= i <= 0
    case U64(n) => n <= U64_MAX
    case Number(token) => IsNumberToken(token)
    case Arr(items) => forall k :: 0 <= k < |items| ==> WellFormed(items[k])
    case Obj(members) => Ascending(members) && forall k :: 0 <= k < |members| ==> WellFormed(members[k].value)
    case _ => true
  }

  /** "-0" parses to a signed zero, which prints as the unsigned one; nothing else is identified. */
  function Norm(v: Value): Value
    decreases v, 1
  {
    match v
    case I64(i) => if i == 0 then U64(0) else v
    case Arr(items) => Arr(NormItems(items))
    case Obj(members) => Obj(NormMembers(members))
    case _ => v
  }

  function NormItems(items: seq<Value>): (r: seq<Value>)
    ensures |r| == |items| && forall k :: 0 <= k < |items| ==> r[k] == Norm(items[k])
    decreases items, 0
  {
    if items == [] then [] else [Norm(items[0])] + NormItems(items[1..])
  }

  function NormMembers(members: seq<Member>): (r: seq<Member>)
    ensures |r| == |members|
    ensures forall k :: 0 <= k < |members| ==> r[k] == Member(members[k].key, Norm(members[k].value))
    decreases members, 0
  {
    if members == [] then []
    else [Member(members[0].key, Norm(members[0].value))] + NormMembers(members[1..])
  }

  lemma NormPrintsAlike(v: Value)
    ensures Print(Norm(v)) == Print(v)
    decreases v, 1, 0
  {
    match v
    case Arr(_) => NormItemsPrintAlike(v, 0);
    case Obj(_) => NormMembersPrintAlike(v, 0);
    case _ =>
  }

  lemma NormItemsPrintAlike(v: Value, k: nat)
    requires v.Arr? && k <= |v.items|
    ensures ItemsFrom(Norm(v), k) == ItemsFrom(v, k)
    decreases v, 0, |v.items| - k
  {
    if k < |v.items| {
      NormPrintsAlike(v.items[k]);
      NormItemsPrintAlike(v, k + 1);
    }
  }

  lemma NormMembersPrintAlike(v: Value, k: nat)
    requires v.Obj? && k <= |v.members|
    ensures MembersFrom(Norm(v), k) == MembersFrom(v, k)
    decreases v, 0, |v.members| - k
  {
    if k < |v.members| {
      NormPrintsAlike(v.members[k].value);
      NormMembersPrintAlike(v, k + 1);
    }
  }
}
