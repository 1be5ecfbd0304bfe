/**
 Parsing and canonical printing are inverse to each other: the printed text of any parsed value parses
 back to it, wherever it stands in a longer text.
 */
module JsonRoundTrip {
  import opened JsonValues
  import opened JsonParsing

  /** Text `t` stands in `s` at position `i`. */
  predicate At(s: string, i: nat, t: string) { i + |t| <= |s| && s[i..i + |t|] == t }

  lemma AtSplit(s: string, i: nat, a: string, b: string)
    requires At(s, i, a + b)
    ensures At(s, i, a) && At(s, i + |a|, b)
  {
    assert s[i..i + |a|] == (a + b)[..|a|];
    assert s[i + |a|..i + |a| + |b|] == (a + b)[|a|..];
  }

  lemma AtChar(s: string, i: nat, t: string, k: nat)
    requires At(s, i, t) && k < |t|
    ensures s[i + k] == t[k]
  {
    assert s[i..i + |t|][k] == s[i + k];
  }

  // Numbers

  predicate DigitAt(s: string, i: nat) { i < |s| && IsDigit(s[i]) }

  /** What may follow a value: nothing that would continue a number. */
  predicate Boundary(s: string, i: nat) {
    !DigitAt(s, i) && !Has(s, i, '.') && !Has(s, i, 'e') && !Has(s, i, 'E')
  }

  lemma DigitsAt(s: string, i: nat, t: string)
    requires At(s, i, t) && IsDigits(t) && !DigitAt(s, i + |t|)
    ensures SkipDigits(s, i) == i + |t| && DigitAt(s, i)
  {
    hide SkipDigits;
    forall k | i <= k < i + |t|
      ensures DigitAt(s, k)
    {
      AtChar(s, i, t, k - i);
    }
    var j := SkipDigits(s, i);
    assert j < i + |t| ==> DigitAt(s, j);
  }

  lemma WholeAt(s: string, i: nat, t: string)
    requires At(s, i, t) && IsInt(t) && !DigitAt(s, i + |t|)
    ensures Whole(s, i) == Ok((), i + |t|)
  {
    DigitsAt(s, i, t);
    AtChar(s, i, t, 0);
  }

  lemma FractionAt(s: string, i: nat, t: string)
    requires At(s, i, t) && IsFraction(t) && !DigitAt(s, i + |t|) && (t == "" ==> !Has(s, i, '.'))
    ensures Fraction(s, i) == Ok((), i + |t|)
  {
    hide SkipDigits;
    if t != "" {
      assert t == t[..1] + t[1..];
      AtSplit(s, i, t[..1], t[1..]);
      AtChar(s, i, t, 0);
      DigitsAt(s, i + 1, t[1..]);
    }
  }

  lemma ExponentAt(s: string, i: nat, t: string)
    requires At(s, i, t) && IsExponent(t) && Boundary(s, i + |t|)
    ensures Exponent(s, i) == Ok((), i + |t|)
  {
    hide SkipDigits, IsDigits;
    if t != "" {
      AtChar(s, i, t, 0);
      AtChar(s, i, t, 1);
      var n := if t[1] == '+' || t[1] == '-' then 2 else 1;
      assert t == t[..n] + t[n..];
      AtSplit(s, i, t[..n], t[n..]);
      DigitsAt(s, i + n, t[n..]);
    }
  }

  lemma NumberTokenAt(s: string, i: nat, sign: string, whole: string, fraction: string, exponent: string)
    requires NumberParts(sign, whole, fraction, exponent)
    requires At(s, i, sign + whole + fraction + exponent)
    requires Boundary(s, i + |sign + whole + fraction + exponent|)
    ensures NumberAt(s, i) == Ok(Number(sign + whole + fraction + exponent), i + |sign + whole + fraction + exponent|)
  {
    hide SkipDigits, Whole, Fraction, Exponent, DigitsValue, IsInt, IsFraction, IsExponent;
    hide At;
    AtFour(s, i, sign, whole, fraction, exponent);
    var start := i + |sign|;
    var k := start + |whole|;
    var f := k + |fraction|;
    SignAt(s, i, sign, whole);
    if fraction != "" {
      FractionStarts(s, k, fraction);
    }
    if exponent != "" {
      ExponentStarts(s, f, exponent);
    }
    WholeAt(s, start, whole);
    FractionAt(s, k, fraction);
    ExponentAt(s, f, exponent);
  }

  lemma AtFour(s: string, i: nat, a: string, b: string, c: string, d: string)
    requires At(s, i, a + b + c + d)
    ensures At(s, i, a) && At(s, i + |a|, b) && At(s, i + |a| + |b|, c) && At(s, i + |a| + |b| + |c|, d)
    ensures |a + b + c + d| == |a| + |b| + |c| + |d| && i + |a + b + c + d| <= |s|
    ensures s[i..i + |a| + |b| + |c| + |d|] == a + b + c + d
  {
    AtSplit(s, i, a + b + c, d);
    AtSplit(s, i, a + b, c);
    AtSplit(s, i, a, b);
  }

  lemma FractionStarts(s: string, i: nat, t: string)
    requires At(s, i, t) && IsFraction(t) && t != ""
    ensures !DigitAt(s, i)
  {
    AtChar(s, i, t, 0);
  }

  lemma ExponentStarts(s: string, i: nat, t: string)
    requires At(s, i, t) && IsExponent(t) && t != ""
    ensures !DigitAt(s, i) && !Has(s, i, '.')
  {
    AtChar(s, i, t, 0);
  }

  lemma SignAt(s: string, i: nat, sign: string, whole: string)
    requires (sign == "" || sign == "-") && IsInt(whole) && At(s, i, sign) && At(s, i + |sign|, whole)
    ensures Has(s, i, '-') <==> sign == "-"
    ensures i < |s| && (s[i] == '-' || IsDigit(s[i]))
  {
    AtChar(s, i + |sign|, whole, 0);
    if sign == "-" {
      AtChar(s, i, sign, 0);
    }
  }

  /** A plain integer: the token, and what the conversion makes of it. */
  lemma IntegerAt(s: string, i: nat, sign: string, n: nat)
    requires sign == "" || sign == "-"
    requires At(s, i, sign + Decimal(n)) && Boundary(s, i + |sign + Decimal(n)|)
    requires if sign == "" then n <= U64_MAX else n <= -I64_MIN
    ensures NumberAt(s, i) == Ok(if sign == "" then U64(n) else I64(0 - n), i + |sign + Decimal(n)|)
  {
    hide SkipDigits, Whole, Fraction, Exponent, Decimal, DigitsValue;
    AtSplit(s, i, sign, Decimal(n));
    var start := i + |sign|;
    var end := start + |Decimal(n)|;
    SignAt(s, i, sign, Decimal(n));
    WholeAt(s, start, Decimal(n));
    FractionAt(s, end, "");
    ExponentAt(s, end, "");
    DecimalDenotes(n);
  }

  /** The parser accepts a number exactly by the grammar, and keeps it within range. */
  lemma NumberIsWellFormed(s: string, i: nat)
    requires i <= |s| && NumberAt(s, i).Ok?
    ensures WellFormed(NumberAt(s, i).value)
  {
    hide SkipDigits, Whole, Fraction, Exponent, DigitsValue, IsInt, IsFraction, IsExponent;
    var start := if Has(s, i, '-') then i + 1 else i;
    var k := Whole(s, start).next;
    var f := Fraction(s, k).next;
    var e := Exponent(s, f).next;
    if k < e {
      Split(s, i, start, k);
      Split(s, i, k, f);
      Split(s, i, f, e);
      assert NumberParts(s[i..start], s[start..k], s[k..f], s[f..e]) by {
        assert |s[k..f] + s[f..e]| == e - k;
      }
    }
  }

  lemma Split(s: string, i: nat, m: nat, e: nat)
    requires i <= m <= e <= |s|
    ensures s[i..e] == s[i..m] + s[m..e]
  {}

  // Strings

  lemma HexDigitValue(d: nat)
    requires d < 16
    ensures HexValue(HexDigit(d)) == d
  {}

  /** Two zeros and two hexadecimal digits, as the printer writes control characters. */
  lemma ControlHex(s: string, i: nat, c: char)
    requires c < ' ' && At(s, i, "00" + [HexDigit(c as int / 16), HexDigit(c as int % 16)])
    ensures Hex4(s, i) == Ok(c as int, i + 4)
  {
    var t := "00" + [HexDigit(c as int / 16), HexDigit(c as int % 16)];
    AtChar(s, i, t, 0);
    AtChar(s, i, t, 1);
    AtChar(s, i, t, 2);
    AtChar(s, i, t, 3);
    HexDigitValue(c as int / 16);
    HexDigitValue(c as int % 16);
    assert HexPrefix(s, i, 1) == 0 && HexPrefix(s, i, 2) == 0 && HexPrefix(s, i, 3) == c as int / 16;
  }

  /** Reading one escaped character. */
  lemma CharAt(s: string, i: nat, c: char, output: string)
    requires At(s, i, EscapeChar(c))
    ensures Chars(s, i, output) == Chars(s, i + |EscapeChar(c)|, output + [c])
  {
    hide Hex4;
    var e := EscapeChar(c);
    AtChar(s, i, e, 0);
    if |e| > 1 {
      AtChar(s, i, e, 1);
    }
    if |e| == 6 {
      var hex := "00" + [HexDigit(c as int / 16), HexDigit(c as int % 16)];
      assert e == "\\u" + hex;
      AtSplit(s, i, "\\u", hex);
      ControlHex(s, i + 2, c);
    }
  }

  lemma {:induction false} CharsRoundTrip(t: string, k: nat, s: string, i: nat)
    requires k <= |t| && At(s, i, EscapedFrom(t, k))
    ensures Chars(s, i, t[..k]) == Ok(t, i + |EscapedFrom(t, k)|)
    decreases |t| - k
  {
    hide Unicode, Utf8, Unescape, EscapeChar;
    if k == |t| {
      AtChar(s, i, "\"", 0);
      assert t[..k] == t;
    } else {
      AtSplit(s, i, EscapeChar(t[k]), EscapedFrom(t, k + 1));
      CharAt(s, i, t[k], t[..k]);
      assert t[..k] + [t[k]] == t[..k + 1];
      CharsRoundTrip(t, k + 1, s, i + |EscapeChar(t[k])|);
    }
  }

  lemma StringRoundTrip(t: string, s: string, i: nat)
    requires At(s, i, Quoted(t))
    ensures StringAt(s, i) == Ok(t, i + |Quoted(t)|)
  {
    AtSplit(s, i, "\"", EscapedFrom(t, 0));
    AtChar(s, i, "\"", 0);
    assert t[..0] == "";
    CharsRoundTrip(t, 0, s, i + 1);
  }

  // Keys

  lemma {:induction false} KeyOrder(a: string, b: string)
    ensures KeyLess(a, b) || a == b || KeyLess(b, a)
    ensures !(KeyLess(a, b) && KeyLess(b, a)) && !KeyLess(a, a)
  {
    if a != "" {
      KeyOrder(a[1..], if b != "" then b[1..] else "");
      assert a == [a[0]] + a[1..];
      assert b != "" ==> b == [b[0]] + b[1..];
    }
  }

  lemma {:induction false} KeyTransitive(a: string, b: string, c: string)
    requires KeyLess(a, b) && KeyLess(b, c)
    ensures KeyLess(a, c)
  {
    if a != "" {
      if a[0] == b[0] == c[0] {
        KeyTransitive(a[1..], b[1..], c[1..]);
      }
    }
  }

  /** Insertion keeps the keys in order; it adds the member and nothing else. */
  lemma {:induction false} InsertAscending(members: seq<Member>, m: Member)
    requires Ascending(members) && !HasKey(members, m.key)
    ensures Ascending(Insert(members, m))
    ensures forall x :: x in Insert(members, m) <==> x == m || x in members
  {
    if members != [] && !KeyLess(m.key, members[0].key) {
      var rest := members[1..];
      assert forall k :: 0 <= k < |rest| ==> rest[k] == members[k + 1];
      InsertAscending(rest, m);
      KeyOrder(m.key, members[0].key);
      assert KeyLess(members[0].key, m.key);
      var all := Insert(members, m);
      assert all == [members[0]] + Insert(rest, m);
      assert forall x :: x in Insert(rest, m) ==> KeyLess(members[0].key, x.key);
      assert forall k :: 1 <= k < |all| ==> all[k] in Insert(rest, m);
    } else if members != [] {
      var all := Insert(members, m);
      forall k | 0 <= k < |members|
        ensures KeyLess(m.key, members[k].key)
      {
        if k > 0 {
          KeyTransitive(m.key, members[0].key, members[k].key);
        }
      }
      assert all == [m] + members;
    }
  }

  /** A key behind all others is appended. */
  lemma {:induction false} InsertLast(members: seq<Member>, m: Member)
    requires forall k :: 0 <= k < |members| ==> KeyLess(members[k].key, m.key)
    ensures Insert(members, m) == members + [m] && !HasKey(members, m.key)
  {
    KeyOrder(m.key, m.key);
    if members != [] {
      KeyOrder(m.key, members[0].key);
      assert forall k :: 0 <= k < |members[1..]| ==> members[1..][k] == members[k + 1];
      InsertLast(members[1..], m);
      assert members == [members[0]] + members[1..];
    }
  }

  // Values

  /** No value starts with whitespace or a closing bracket. */
  predicate StartsValue(c: char) { !IsSpace(c) && c != ']' && c != '}' }

  lemma PrintStarts(v: Value)
    requires WellFormed(v)
    ensures Print(v) != "" && StartsValue(Print(v)[0])
  {
    match v
    case Number(token) =>
      var sign, whole, fraction, exponent :|
        NumberParts(sign, whole, fraction, exponent) && token == sign + whole + fraction + exponent;
      assert token[0] == if sign == "" then whole[0] else '-';
      assert IsDigit(whole[0]);
    case U64(n) => assert IsDigit(Decimal(n)[0]);
    case I64(n) => assert IsDigit(Decimal(if n < 0 then -n else n)[0]);
    case _ =>
  }

  lemma TextStarts(s: string, i: nat, v: Value, rest: string)
    requires WellFormed(v) && At(s, i, Print(v) + rest)
    ensures At(s, i, Print(v)) && At(s, i + |Print(v)|, rest)
    ensures i < |s| && StartsValue(s[i]) && SkipSpace(s, i) == i
  {
    AtSplit(s, i, Print(v), rest);
    PrintStarts(v);
    AtChar(s, i, Print(v), 0);
  }

  /** A separator or closing bracket: it ends a number and is no whitespace. */
  lemma SeparatorAt(s: string, i: nat, c: char, rest: string)
    requires At(s, i, [c] + rest) && (c == ',' || c == ']' || c == '}' || c == ':')
    ensures Has(s, i, c) && Boundary(s, i) && SkipSpace(s, i) == i && At(s, i + 1, rest)
  {
    AtSplit(s, i, [c], rest);
    AtChar(s, i, [c], 0);
  }

  lemma NumberRoundTrip(v: Value, s: string, i: nat)
    requires WellFormed(v) && (v.I64? || v.U64? || v.Number?)
    requires At(s, i, Print(v)) && Boundary(s, i + |Print(v)|)
    ensures NumberAt(s, i) == Ok(Norm(v), i + |Print(v)|)
    ensures i < |s| && (s[i] == '-' || IsDigit(s[i]))
  {
    hide NumberAt, Decimal, At, IsInt, IsFraction, IsExponent;
    match v
    case I64(n) =>
      assert "" + Decimal(0) == Decimal(0);
      IntegerAt(s, i, if n < 0 then "-" else "", if n < 0 then -n else 0);
      AtSplit(s, i, if n < 0 then "-" else "", Decimal(if n < 0 then -n else 0));
      SignAt(s, i, if n < 0 then "-" else "", Decimal(if n < 0 then -n else 0));
    case U64(n) =>
      assert "" + Decimal(n) == Decimal(n);
      IntegerAt(s, i, "", n);
      SignAt(s, i, "", Decimal(n));
    case Number(token) =>
      var sign, whole, fraction, exponent :|
        NumberParts(sign, whole, fraction, exponent) && token == sign + whole + fraction + exponent;
      NumberTokenAt(s, i, sign, whole, fraction, exponent);
      AtFour(s, i, sign, whole, fraction, exponent);
      SignAt(s, i, sign, whole);
  }

  lemma TakeOneMore<T>(all: seq<T>, k: nat)
    requires k < |all|
    ensures all[..k] + [all[k]] == all[..k + 1]
    ensures k + 1 == |all| ==> all[..k + 1] == all
  {}

  lemma ItemsUnfold(v: Value, k: nat)
    requires v.Arr? && WellFormed(v) && k < |v.items|
    ensures ItemsFrom(v, |v.items|) == [']'] + ""
    ensures ItemsFrom(v, k) == (if k == 0 then "" else [',']) + (Print(v.items[k]) + ItemsFrom(v, k + 1))
    ensures WellFormed(v.items[k]) && Norm(v) == Arr(NormItems(v.items))
  {}

  lemma MembersUnfold(v: Value, k: nat)
    requires v.Obj? && WellFormed(v) && k < |v.members|
    ensures MembersFrom(v, |v.members|) == ['}'] + ""
    ensures MembersFrom(v, k) == (if k == 0 then "" else [',']) + MemberText(v, k)
    ensures WellFormed(v.members[k].value) && Norm(v) == Obj(NormMembers(v.members))
  {}

  /** The next printed key is behind those already read, so it is new and goes last. */
  lemma NextKeyIsLast(v: Value, k: nat)
    requires v.Obj? && WellFormed(v) && k < |v.members|
    ensures
      var all := NormMembers(v.members);
      !HasKey(all[..k], all[k].key) && Insert(all[..k], all[k]) == all[..k + 1] &&
      all[k] == Member(v.members[k].key, Norm(v.members[k].value)) && (k + 1 == |all| ==> all[..k + 1] == all)
  {
    hide KeyLess, Insert, HasKey;
    var all := NormMembers(v.members);
    InsertLast(all[..k], all[k]);
    TakeOneMore(all, k);
  }

  /** The main theorem: printed text parses back, in any surroundings that do not continue a number. */
  lemma {:induction false} ValueRoundTrip(v: Value, s: string, i: nat)
    requires WellFormed(v) && At(s, i, Print(v)) && Boundary(s, i + |Print(v)|)
    ensures ValueAt(s, i) == Ok(Norm(v), i + |Print(v)|)
    decreases v, 1, 0
  {
    hide NumberAt, StringAt, ItemsAt, MembersAt, SkipSpace;
    match v
    case Null => AtChar(s, i, Print(v), 0);
    case Bool(_) => AtChar(s, i, Print(v), 0);
    case I64(_) => NumberRoundTrip(v, s, i);
    case U64(_) => NumberRoundTrip(v, s, i);
    case Number(_) => NumberRoundTrip(v, s, i);
    case Str(text) =>
      StringRoundTrip(text, s, i);
      AtChar(s, i, Print(v), 0);
    case Arr(_) => ArrayRoundTrip(v, s, i);
    case Obj(_) => ObjectRoundTrip(v, s, i);
  }

  lemma {:induction false} ArrayRoundTrip(v: Value, s: string, i: nat)
    requires v.Arr? && WellFormed(v) && At(s, i, Print(v))
    ensures ValueAt(s, i) == Ok(Norm(v), i + |Print(v)|)
    decreases v, 1, -1
  {
    hide ItemsAt, MembersAt, SkipSpace, StringAt, NumberAt, Decimal, WellFormed, At;
    AtSplit(s, i, "[", ItemsFrom(v, 0));
    AtChar(s, i, "[", 0);
    if v.items == [] {
      assert ItemsFrom(v, 0) == [']'] + "";
      SeparatorAt(s, i + 1, ']', "");
      assert Norm(v) == Arr([]);
    } else {
      ItemsUnfold(v, 0);
      ArrayBody(v, s, i + 1);
    }
  }

  lemma {:induction false} ArrayBody(v: Value, s: string, i: nat)
    requires v.Arr? && v.items != [] && WellFormed(v) && At(s, i, "" + (Print(v.items[0]) + ItemsFrom(v, 1)))
    ensures SkipSpace(s, i) == i && !Has(s, i, ']')
    ensures ItemsAt(s, i, []) == Ok(Norm(v), i + |Print(v.items[0]) + ItemsFrom(v, 1)|)
    decreases v, 0, |v.items| + 1
  {
    hide ItemsAt, SkipSpace, Print, ItemsFrom, Norm, WellFormed, At;
    var text := Print(v.items[0]) + ItemsFrom(v, 1);
    assert "" + text == text;
    ItemsUnfold(v, 0);
    TextStarts(s, i, v.items[0], ItemsFrom(v, 1));
    assert NormItems(v.items)[..0] == [];
    ItemsRoundTrip(v, 0, s, i);
  }

  lemma {:induction false} ItemsRoundTrip(v: Value, k: nat, s: string, i: nat)
    requires v.Arr? && WellFormed(v) && k < |v.items|
    requires At(s, i, Print(v.items[k]) + ItemsFrom(v, k + 1))
    ensures ItemsAt(s, i, NormItems(v.items)[..k]) ==
            Ok(Norm(v), i + |Print(v.items[k]) + ItemsFrom(v, k + 1)|)
    decreases v, 0, |v.items| - k
  {
    hide ValueAt, SkipSpace, Print, ItemsFrom, Norm, NormItems, WellFormed, At;
    ItemsUnfold(v, k);
    var item, all := v.items[k], NormItems(v.items);
    TakeOneMore(all, k);
    TextStarts(s, i, item, ItemsFrom(v, k + 1));
    var j := i + |Print(item)|;
    if k + 1 == |v.items| {
      SeparatorAt(s, j, ']', "");
      ValueRoundTrip(item, s, i);
    } else {
      ItemsUnfold(v, k + 1);
      var rest := Print(v.items[k + 1]) + ItemsFrom(v, k + 2);
      SeparatorAt(s, j, ',', rest);
      ValueRoundTrip(item, s, i);
      ItemsRoundTrip(v, k + 1, s, j + 1);
    }
  }

  lemma {:induction false} ObjectRoundTrip(v: Value, s: string, i: nat)
    requires v.Obj? && WellFormed(v) && At(s, i, Print(v))
    ensures ValueAt(s, i) == Ok(Norm(v), i + |Print(v)|)
    decreases v, 1, -1
  {
    hide ItemsAt, MembersAt, SkipSpace, StringAt, NumberAt, Decimal, Quoted, WellFormed, At;
    AtSplit(s, i, "{", MembersFrom(v, 0));
    AtChar(s, i, "{", 0);
    if v.members == [] {
      assert MembersFrom(v, 0) == ['}'] + "";
      SeparatorAt(s, i + 1, '}', "");
      assert Norm(v) == Obj([]);
    } else {
      MembersUnfold(v, 0);
      ObjectBody(v, s, i + 1);
    }
  }

  lemma {:induction false} ObjectBody(v: Value, s: string, i: nat)
    requires v.Obj? && v.members != [] && WellFormed(v) && At(s, i, "" + MemberText(v, 0))
    ensures SkipSpace(s, i) == i && Has(s, i, '"')
    ensures MembersAt(s, i, []) == Ok(Norm(v), i + |MemberText(v, 0)|)
    decreases v, 0, |v.members| + 1
  {
    hide MembersAt, SkipSpace, Print, MembersFrom, Norm, WellFormed, Quoted, At;
    assert "" + MemberText(v, 0) == MemberText(v, 0);
    MembersUnfold(v, 0);
    QuoteStarts(s, i, v.members[0].key, ":" + (Print(v.members[0].value) + MembersFrom(v, 1)));
    assert NormMembers(v.members)[..0] == [];
    MembersRoundTrip(v, 0, s, i);
  }

  function MemberText(v: Value, k: nat): string
    requires v.Obj? && k < |v.members|
  {
    Quoted(v.members[k].key) + (":" + (Print(v.members[k].value) + MembersFrom(v, k + 1)))
  }

  lemma QuoteStarts(s: string, i: nat, t: string, rest: string)
    requires At(s, i, Quoted(t) + rest)
    ensures At(s, i, Quoted(t)) && At(s, i + |Quoted(t)|, rest)
    ensures Has(s, i, '"') && SkipSpace(s, i) == i
  {
    AtSplit(s, i, Quoted(t), rest);
    AtChar(s, i, Quoted(t), 0);
  }

  lemma {:induction false} MemberRoundTrip(v: Value, k: nat, s: string, i: nat)
    requires v.Obj? && WellFormed(v) && k < |v.members| && At(s, i, MemberText(v, k))
    requires Boundary(s, i + |MemberText(v, k)| - |MembersFrom(v, k + 1)|)
    ensures MemberAt(s, i) ==
            Ok(Member(v.members[k].key, Norm(v.members[k].value)), i + |MemberText(v, k)| - |MembersFrom(v, k + 1)|)
    ensures At(s, i + |MemberText(v, k)| - |MembersFrom(v, k + 1)|, MembersFrom(v, k + 1))
    decreases v, 0, 0, 0
  {
    hide ValueAt, SkipSpace, Quoted, StringAt, Print, MembersFrom, Norm, WellFormed, At;
    MembersUnfold(v, k);
    var m, rest := v.members[k], MembersFrom(v, k + 1);
    QuoteStarts(s, i, m.key, ":" + (Print(m.value) + rest));
    StringRoundTrip(m.key, s, i);
    var colon := i + |Quoted(m.key)|;
    SeparatorAt(s, colon, ':', Print(m.value) + rest);
    TextStarts(s, colon + 1, m.value, rest);
    ValueRoundTrip(m.value, s, colon + 1);
  }

  lemma {:induction false} MembersRoundTrip(v: Value, k: nat, s: string, i: nat)
    requires v.Obj? && WellFormed(v) && k < |v.members| && At(s, i, MemberText(v, k))
    ensures MembersAt(s, i, NormMembers(v.members)[..k]) == Ok(Norm(v), i + |MemberText(v, k)|)
    decreases v, 0, |v.members| - k
  {
    hide ValueAt, SkipSpace, MemberAt, Insert, HasKey, Print, MembersFrom, MemberText, Norm, NormMembers, WellFormed, At;
    MembersUnfold(v, k);
    var j := i + |MemberText(v, k)| - |MembersFrom(v, k + 1)|;
    AtTail(s, i, v, k);
    NextKeyIsLast(v, k);
    if k + 1 == |v.members| {
      SeparatorAt(s, j, '}', "");
      MemberRoundTrip(v, k, s, i);
    } else {
      MembersUnfold(v, k + 1);
      SeparatorAt(s, j, ',', MemberText(v, k + 1));
      MemberRoundTrip(v, k, s, i);
      MembersRoundTrip(v, k + 1, s, j + 1);
    }
  }

  lemma AtTail(s: string, i: nat, v: Value, k: nat)
    requires v.Obj? && k < |v.members| && At(s, i, MemberText(v, k))
    ensures |MembersFrom(v, k + 1)| <= |MemberText(v, k)|
    ensures At(s, i + |MemberText(v, k)| - |MembersFrom(v, k + 1)|, MembersFrom(v, k + 1))
  {
    var m, rest := v.members[k], MembersFrom(v, k + 1);
    AtSplit(s, i, Quoted(m.key), ":" + (Print(m.value) + rest));
    AtSplit(s, i + |Quoted(m.key)|, ":", Print(m.value) + rest);
    AtSplit(s, i + |Quoted(m.key)| + 1, Print(m.value), rest);
  }
}
