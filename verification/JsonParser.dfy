/**
 The JSON parser: a cursor over the input.  Each method of the cursor is proved against a function of
 the input and the position, error positions and messages included.
 */
module JsonParsing {
  import opened JsonValues

  datatype Parsed<+T> = Ok(value: T, next: nat) | Err(at: nat, message: string)
  {
    predicate IsFailure() { Err? }

    function PropagateFailure<U>(): Parsed<U>
      requires Err?
    {
      Err(at, message)
    }

    function Extract(): T
      requires Ok?
    {
      value
    }
  }

  function SkipSpace(s: string, i: nat): (j: nat)
    requires i <= |s|
    ensures i <= j <= |s|
    decreases |s| - i
  {
    if i < |s| && IsSpace(s[i]) then SkipSpace(s, i + 1) else i
  }

  function SkipDigits(s: string, i: nat): (j: nat)
    requires i <= |s|
    ensures i <= j <= |s|
    ensures forall k :: i <= k < j ==> IsDigit(s[k])
    ensures j < |s| ==> !IsDigit(s[j])
    decreases |s| - i
  {
    if i < |s| && IsDigit(s[i]) then SkipDigits(s, i + 1) else i
  }

  predicate Has(s: string, i: nat, c: char) { i < |s| && s[i] == c }

  function Expect(s: string, i: nat, token: string, v: Value): (r: Parsed<Value>)
    requires i <= |s|
    ensures r.Ok? ==> r.next <= |s|
  {
    if i + |token| <= |s| && s[i..i + |token|] == token then Ok(v, i + |token|) else Err(i, "expected " + token)
  }

  // Strings

  function HexValue(c: char): int {
    if '0' <= c <= '9' then c as int - '0' as int
    else if 'a' <= c <= 'f' then c as int - 'a' as int + 10
    else if 'A' <= c <= 'F' then c as int - 'A' as int + 10
    else -1
  }

  /** The value of the first `n` hexadecimal digits at `i`, or -1 when one of them is none. */
  function HexPrefix(s: string, i: nat, n: nat): (v: int)
    requires i + n <= |s|
    ensures -1 <= v && (n == 0 ==> v == 0)
    ensures n == 1 ==> v < 0x10
    ensures n == 2 ==> v < 0x100
    ensures n == 3 ==> v < 0x1000
    ensures n == 4 ==> v < 0x1_0000
  {
    if n == 0 then 0
    else
      var p, d := HexPrefix(s, i, n - 1), HexValue(s[i + n - 1]);
      if p < 0 || d < 0 then -1 else 16 * p + d
  }

  function Hex4(s: string, i: nat): (r: Parsed<nat>)
    requires i <= |s|
    ensures r.Ok? ==> r.next == i + 4 <= |s| && r.value == HexPrefix(s, i, 4) < 0x1_0000
  {
    if i + 4 > |s| then Err(i, "truncated unicode escape")
    else if HexPrefix(s, i, 1) < 0 then Err(i + 1, "invalid unicode escape")
    else if HexPrefix(s, i, 2) < 0 then Err(i + 2, "invalid unicode escape")
    else if HexPrefix(s, i, 3) < 0 then Err(i + 3, "invalid unicode escape")
    else if HexPrefix(s, i, 4) < 0 then Err(i + 4, "invalid unicode escape")
    else Ok(HexPrefix(s, i, 4), i + 4)
  }

  predicate IsScalar(cp: nat) { cp < 0x11_0000 && !(0xd800 <= cp <= 0xdfff) }

  /** The second half of a surrogate pair, `j` being just behind the first. */
  function LowHalf(s: string, j: nat, high: nat): (r: Parsed<nat>)
    requires j <= |s| && 0xd800 <= high <= 0xdbff
    ensures r.Ok? ==> j < r.next <= |s| && 0x1_0000 <= r.value < 0x11_0000
  {
    if j + 2 > |s| || s[j] != '\\' || s[j + 1] != 'u' then Err(j, "high surrogate without low surrogate")
    else
      var low :- Hex4(s, j + 2);
      if low < 0xdc00 || low > 0xdfff then Err(j + 6, "invalid low surrogate")
      else Ok(0x1_0000 + (high - 0xd800) * 0x400 + (low - 0xdc00), j + 6)
  }

  /** The code point of one or two `\u` escapes; `i` is just behind the first `\u`. */
  function Unicode(s: string, i: nat): (r: Parsed<nat>)
    requires i <= |s|
    ensures r.Ok? ==> i < r.next <= |s| && IsScalar(r.value)
  {
    var high :- Hex4(s, i);
    if 0xd800 <= high <= 0xdbff then LowHalf(s, i + 4, high)
    else if 0xdc00 <= high <= 0xdfff then Err(i + 4, "unpaired low surrogate")
    else Ok(high, i + 4)
  }

  /** UTF-8 bytes of a code point; the source's shifts and masks are quotients and remainders of 64. */
  function Utf8(cp: nat): string
    requires IsScalar(cp)
  {
    if cp <= 0x7f then [cp as char]
    else if cp <= 0x7ff then [(0xc0 + cp / 64) as char, (0x80 + cp % 64) as char]
    else if cp <= 0xffff then [(0xe0 + cp / 4096) as char, (0x80 + cp / 64 % 64) as char, (0x80 + cp % 64) as char]
    else
      [(0xf0 + cp / 262144) as char, (0x80 + cp / 4096 % 64) as char,
       (0x80 + cp / 64 % 64) as char, (0x80 + cp % 64) as char]
  }

  /** The character behind a one-letter escape, or nothing. */
  function Unescape(c: char): (r: string)
    ensures |r| <= 1
  {
    match c
    case '"' => "\""
    case '\\' => "\\"
    case '/' => "/"
    case 'b' => "\U{0008}"
    case 'f' => "\U{000c}"
    case 'n' => "\n"
    case 'r' => "\r"
    case 't' => "\t"
    case _ => ""
  }

  /** The rest of a string literal, `output` being its text so far. */
  function Chars(s: string, i: nat, output: string): (r: Parsed<string>)
    requires i <= |s|
    ensures r.Ok? ==> i < r.next <= |s|
    decreases |s| - i
  {
    if i == |s| then Err(i, "unterminated string")
    else if s[i] == '"' then Ok(output, i + 1)
    else if s[i] < ' ' then Err(i + 1, "control character in string")
    else if s[i] != '\\' then Chars(s, i + 1, output + [s[i]])
    else if i + 1 == |s| then Err(i + 1, "truncated escape")
    else if s[i + 1] == 'u' then
      var codepoint :- Unicode(s, i + 2);
      Chars(s, Unicode(s, i + 2).next, output + Utf8(codepoint))
    else if Unescape(s[i + 1]) == "" then Err(i + 2, "invalid escape")
    else Chars(s, i + 2, output + Unescape(s[i + 1]))
  }

  function StringAt(s: string, i: nat): (r: Parsed<string>)
    requires i <= |s|
    ensures r.Ok? ==> i < r.next <= |s|
  {
    if Has(s, i, '"') then Chars(s, i + 1, "") else Err(i, "expected string")
  }

  // Numbers

  function Whole(s: string, i: nat): (r: Parsed<()>)
    requires i <= |s|
    ensures r.Ok? ==> i < r.next <= |s| && IsInt(s[i..r.next])
  {
    if i == |s| then Err(i, "truncated integer")
    else if s[i] == '0' then
      if i + 1 < |s| && IsDigit(s[i + 1]) then Err(i + 1, "leading zero in integer") else Ok((), i + 1)
    else if s[i] < '1' || s[i] > '9' then Err(i, "invalid integer")
    else Ok((), SkipDigits(s, i))
  }

  function Fraction(s: string, i: nat): (r: Parsed<()>)
    requires i <= |s|
    ensures r.Ok? ==> i <= r.next <= |s| && IsFraction(s[i..r.next])
  {
    if !Has(s, i, '.') then Ok((), i)
    else if i + 1 == |s| || !IsDigit(s[i + 1]) then Err(i + 1, "fraction has no digits")
    else
      var j := SkipDigits(s, i + 1);
      assert s[i..j][1..] == s[i + 1..j];
      Ok((), j)
  }

  function Exponent(s: string, i: nat): (r: Parsed<()>)
    requires i <= |s|
    ensures r.Ok? ==> i <= r.next <= |s| && IsExponent(s[i..r.next])
  {
    if !Has(s, i, 'e') && !Has(s, i, 'E') then Ok((), i)
    else
      var j := if Has(s, i + 1, '+') || Has(s, i + 1, '-') then i + 2 else i + 1;
      if j == |s| || !IsDigit(s[j]) then Err(j, "exponent has no digits")
      else
        var k := SkipDigits(s, j);
        ExponentParts(s, i, j, k);
        Ok((), k)
  }

  lemma ExponentParts(s: string, i: nat, j: nat, k: nat)
    requires i < j < k <= |s| && (s[i] == 'e' || s[i] == 'E') && IsDigits(s[j..k])
    requires if s[i + 1] == '+' || s[i + 1] == '-' then j == i + 2 else j == i + 1
    ensures IsExponent(s[i..k])
  {
    var text := s[i..k];
    assert text[0] == s[i] && text[1] == s[i + 1] && text[j - i..] == s[j..k];
  }

  function NumberAt(s: string, i: nat): (r: Parsed<Value>)
    requires i <= |s|
    ensures r.Ok? ==> i < r.next <= |s|
  {
    var start := if Has(s, i, '-') then i + 1 else i;
    var _ :- Whole(s, start);
    var k := Whole(s, start).next;
    var _ :- Fraction(s, k);
    var f := Fraction(s, k).next;
    var _ :- Exponent(s, f);
    var e := Exponent(s, f).next;
    if k < e then
      Ok(Number(s[i..e]), e)
    else if i < start then
      if DigitsValue(s[start..e]) > -I64_MIN then Err(e, "signed integer out of range")
      else Ok(I64(0 - DigitsValue(s[start..e])), e)
    else if DigitsValue(s[start..e]) > U64_MAX then Err(e, "unsigned integer out of range")
    else Ok(U64(DigitsValue(s[start..e])), e)
  }

  // Values

  function ValueAt(s: string, i: nat): (r: Parsed<Value>)
    requires i <= |s|
    ensures r.Ok? ==> i < r.next <= |s|
    decreases |s| - i, 0
  {
    if i == |s| then Err(i, "expected a value")
    else
      match s[i]
      case 'n' => Expect(s, i, "null", Null)
      case 't' => Expect(s, i, "true", Bool(true))
      case 'f' => Expect(s, i, "false", Bool(false))
      case '"' => (var text :- StringAt(s, i); Ok(Str(text), StringAt(s, i).next))
      case '[' =>
        var j := SkipSpace(s, i + 1);
        if Has(s, j, ']') then Ok(Arr([]), j + 1) else ItemsAt(s, j, [])
      case '{' =>
        var j := SkipSpace(s, i + 1);
        if Has(s, j, '}') then Ok(Obj([]), j + 1) else MembersAt(s, j, [])
      case c => if c == '-' || IsDigit(c) then NumberAt(s, i) else Err(i, "unexpected token")
  }

  /** The loop of an array, at the top of an iteration. */
  function ItemsAt(s: string, i: nat, items: seq<Value>): (r: Parsed<Value>)
    requires i <= |s|
    ensures r.Ok? ==> i < r.next <= |s|
    decreases |s| - i, 1
  {
    var start := SkipSpace(s, i);
    var item :- ValueAt(s, start);
    var j := SkipSpace(s, ValueAt(s, start).next);
    if Has(s, j, ']') then Ok(Arr(items + [item]), j + 1)
    else if Has(s, j, ',') then ItemsAt(s, j + 1, items + [item])
    else Err(j, "expected ',' or ']'")
  }

  /** One `key: value` of an object. */
  function MemberAt(s: string, i: nat): (r: Parsed<Member>)
    requires i <= |s|
    ensures r.Ok? ==> i < r.next <= |s|
    decreases |s| - i, 1
  {
    var start := SkipSpace(s, i);
    if !Has(s, start, '"') then Err(start, "expected object key")
    else
      var key :- StringAt(s, start);
      var colon := SkipSpace(s, StringAt(s, start).next);
      if !Has(s, colon, ':') then Err(colon, "expected ':'")
      else
        var at := SkipSpace(s, colon + 1);
        var value :- ValueAt(s, at);
        Ok(Member(key, value), ValueAt(s, at).next)
  }

  /** The loop of an object, at the top of an iteration. */
  function MembersAt(s: string, i: nat, members: seq<Member>): (r: Parsed<Value>)
    requires i <= |s|
    ensures r.Ok? ==> i < r.next <= |s|
    decreases |s| - i, 2
  {
    var m :- MemberAt(s, i);
    var next := MemberAt(s, i).next;
    if HasKey(members, m.key) then Err(next, "duplicate object key")
    else
      var j := SkipSpace(s, next);
      if Has(s, j, '}') then Ok(Obj(Insert(members, m)), j + 1)
      else if Has(s, j, ',') then MembersAt(s, j + 1, Insert(members, m))
      else Err(j, "expected ',' or '}'")
  }

  function Document(s: string): (r: Parsed<Value>)
    ensures r.Ok? ==> r.next == |s|
  {
    var start := SkipSpace(s, 0);
    var v :- ValueAt(s, start);
    var end := SkipSpace(s, ValueAt(s, start).next);
    if end == |s| then Ok(v, end) else Err(end, "trailing content")
  }

  /** The parser as the source runs it. */
  class Parser {
    const input: string
    var position: nat

    ghost predicate Valid()
      reads this
    {
      position <= |input|
    }

    constructor (input: string)
      ensures Valid() && this.input == input && position == 0
    {
      this.input, position := input, 0;
    }

    /** A result and the position it leaves behind agree with the specification. */
    ghost predicate Gives<T>(r: Parsed<T>, spec: Parsed<T>)
      reads this
    {
      Valid() && r == spec && (r.Ok? ==> position == r.next)
    }

    method SkipWhitespace()
      requires Valid()
      modifies this
      ensures Valid() && position == SkipSpace(input, old(position))
    {
      while position < |input|
        invariant old(position) <= position <= |input|
        invariant SkipSpace(input, position) == SkipSpace(input, old(position))
      {
        if !IsSpace(input[position]) {
          return;
        }
        position := position + 1;
      }
    }

    method SkipDigitRun()
      requires Valid()
      modifies this
      ensures Valid() && position == SkipDigits(input, old(position))
    {
      while position < |input| && IsDigit(input[position])
        invariant old(position) <= position <= |input|
        invariant SkipDigits(input, position) == SkipDigits(input, old(position))
      {
        position := position + 1;
      }
    }

    method Consume(expected: char) returns (found: bool)
      requires Valid()
      modifies this
      ensures Valid() && found == Has(input, old(position), expected)
      ensures position == old(position) + if found then 1 else 0
    {
      found := position < |input| && input[position] == expected;
      if found {
        position := position + 1;
      }
    }

    method ExpectToken(token: string, v: Value) returns (r: Parsed<Value>)
      requires Valid()
      modifies this
      ensures Gives(r, Expect(input, old(position), token, v))
    {
      if position + |token| > |input| || input[position..position + |token|] != token {
        return Err(position, "expected " + token);
      }
      position := position + |token|;
      return Ok(v, position);
    }

    method ParseHex4() returns (r: Parsed<nat>)
      requires Valid()
      modifies this
      ensures Gives(r, Hex4(input, old(position)))
    {
      hide HexValue;
      if position + 4 > |input| {
        return Err(position, "truncated unicode escape");
      }
      var value := 0;
      for n := 0 to 4
        invariant position == old(position) + n
        invariant value == HexPrefix(input, old(position), n)
        invariant forall m :: 0 <= m <= n ==> HexPrefix(input, old(position), m) >= 0
      {
        var d := HexValue(input[position]);
        position := position + 1;
        if d < 0 {
          assert HexPrefix(input, old(position), n + 1) == -1;
          return Err(position, "invalid unicode escape");
        }
        value := 16 * value + d;
      }
      return Ok(value, position);
    }

    method ParseUnicode() returns (r: Parsed<nat>)
      requires Valid()
      modifies this
      ensures Gives(r, Unicode(input, old(position)))
    {
      hide Hex4;
      var codepoint := ParseHex4();
      if codepoint.Err? {
        return codepoint;
      }
      if 0xd800 <= codepoint.value <= 0xdbff {
        if position + 2 > |input| || input[position] != '\\' || input[position + 1] != 'u' {
          return Err(position, "high surrogate without low surrogate");
        }
        position := position + 2;
        var low := ParseHex4();
        if low.Err? {
          return low;
        }
        if low.value < 0xdc00 || low.value > 0xdfff {
          return Err(position, "invalid low surrogate");
        }
        return Ok(0x1_0000 + (codepoint.value - 0xd800) * 0x400 + (low.value - 0xdc00), position);
      } else if 0xdc00 <= codepoint.value <= 0xdfff {
        return Err(position, "unpaired low surrogate");
      }
      return codepoint;
    }

    method ParseString() returns (r: Parsed<string>)
      requires Valid()
      modifies this
      ensures Gives(r, StringAt(input, old(position)))
    {
      hide Unicode, Utf8;
      var open := Consume('"');
      if !open {
        return Err(position, "expected string");
      }
      var output := "";
      while position < |input|
        invariant Valid()
        invariant Chars(input, position, output) == StringAt(input, old(position))
        decreases |input| - position
      {
        var raw := input[position];
        position := position + 1;
        if raw == '"' {
          return Ok(output, position);
        }
        if raw < ' ' {
          return Err(position, "control character in string");
        }
        if raw != '\\' {
          output := output + [raw];
          continue;
        }
        if position == |input| {
          return Err(position, "truncated escape");
        }
        var escaped := input[position];
        position := position + 1;
        if escaped == 'u' {
          var codepoint := ParseUnicode();
          if codepoint.Err? {
            return codepoint.PropagateFailure();
          }
          output := output + Utf8(codepoint.value);
        } else if Unescape(escaped) == "" {
          return Err(position, "invalid escape");
        } else {
          output := output + Unescape(escaped);
        }
      }
      return Err(position, "unterminated string");
    }

    method ParseWhole() returns (r: Parsed<()>)
      requires Valid()
      modifies this
      ensures Gives(r, Whole(input, old(position)))
    {
      hide SkipDigits;
      if position >= |input| {
        return Err(position, "truncated integer");
      }
      if input[position] == '0' {
        position := position + 1;
        if position < |input| && IsDigit(input[position]) {
          return Err(position, "leading zero in integer");
        }
      } else {
        if input[position] < '1' || input[position] > '9' {
          return Err(position, "invalid integer");
        }
        SkipDigitRun();
      }
      return Ok((), position);
    }

    method ParseFraction() returns (r: Parsed<()>)
      requires Valid()
      modifies this
      ensures Gives(r, Fraction(input, old(position)))
    {
      hide SkipDigits;
      if position < |input| && input[position] == '.' {
        position := position + 1;
        if position >= |input| || !IsDigit(input[position]) {
          return Err(position, "fraction has no digits");
        }
        SkipDigitRun();
      }
      return Ok((), position);
    }

    method ParseExponent() returns (r: Parsed<()>)
      requires Valid()
      modifies this
      ensures Gives(r, Exponent(input, old(position)))
    {
      hide SkipDigits;
      if position < |input| && (input[position] == 'e' || input[position] == 'E') {
        position := position + 1;
        if position < |input| && (input[position] == '+' || input[position] == '-') {
          position := position + 1;
        }
        if position >= |input| || !IsDigit(input[position]) {
          return Err(position, "exponent has no digits");
        }
        SkipDigitRun();
      }
      return Ok((), position);
    }

    method ParseNumber() returns (r: Parsed<Value>)
      requires Valid()
      modifies this
      ensures Gives(r, NumberAt(input, old(position)))
    {
      hide SkipDigits, Whole, Fraction, Exponent, DigitsValue;
      var begin := position;
      var negative := Consume('-');
      var start := position;
      var whole := ParseWhole();
      if whole.Err? {
        return whole.PropagateFailure();
      }
      var integral := position;
      var fraction := ParseFraction();
      if fraction.Err? {
        return fraction.PropagateFailure();
      }
      var exponent := ParseExponent();
      if exponent.Err? {
        return exponent.PropagateFailure();
      }
      if integral < position {
        return Ok(Number(input[begin..position]), position);
      }
      if negative {
        if DigitsValue(input[start..position]) > -I64_MIN {
          return Err(position, "signed integer out of range");
        }
        return Ok(I64(0 - DigitsValue(input[start..position])), position);
      }
      if DigitsValue(input[start..position]) > U64_MAX {
        return Err(position, "unsigned integer out of range");
      }
      return Ok(U64(DigitsValue(input[start..position])), position);
    }

    method ParseValue() returns (r: Parsed<Value>)
      requires Valid()
      modifies this
      ensures Gives(r, ValueAt(input, old(position)))
      decreases |input| - position, 0
    {
      hide NumberAt, StringAt, ItemsAt, MembersAt;
      if position >= |input| {
        return Err(position, "expected a value");
      }
      match input[position]
      case 'n' => r := ExpectToken("null", Null);
      case 't' => r := ExpectToken("true", Bool(true));
      case 'f' => r := ExpectToken("false", Bool(false));
      case '"' =>
        var text := ParseString();
        r := if text.Err? then text.PropagateFailure() else Ok(Str(text.value), position);
      case '[' => r := ParseArray();
      case '{' => r := ParseObject();
      case c =>
        if c == '-' || IsDigit(c) {
          r := ParseNumber();
        } else {
          r := Err(position, "unexpected token");
        }
    }

    method ParseArray() returns (r: Parsed<Value>)
      requires Valid() && Has(input, position, '[')
      modifies this
      ensures Gives(r, ValueAt(input, old(position)))
      decreases |input| - position, -1
    {
      hide NumberAt, StringAt, MembersAt, SkipSpace;
      var _ := Consume('[');
      var result := [];
      SkipWhitespace();
      var closed := Consume(']');
      if closed {
        return Ok(Arr(result), position);
      }
      while true
        invariant old(position) < position <= |input|
        invariant ItemsAt(input, position, result) == ValueAt(input, old(position))
        decreases |input| - position
      {
        SkipWhitespace();
        var item := ParseValue();
        if item.Err? {
          return item;
        }
        result := result + [item.value];
        SkipWhitespace();
        closed := Consume(']');
        if closed {
          return Ok(Arr(result), position);
        }
        var comma := Consume(',');
        if !comma {
          return Err(position, "expected ',' or ']'");
        }
      }
    }

    method ParseObject() returns (r: Parsed<Value>)
      requires Valid() && Has(input, position, '{')
      modifies this
      ensures Gives(r, ValueAt(input, old(position)))
      decreases |input| - position, -1
    {
      hide NumberAt, StringAt, ItemsAt, MemberAt, SkipSpace, Insert, HasKey;
      var _ := Consume('{');
      var result: seq<Member> := [];
      SkipWhitespace();
      var closed := Consume('}');
      if closed {
        return Ok(Obj(result), position);
      }
      while true
        invariant old(position) < position <= |input|
        invariant MembersAt(input, position, result) == ValueAt(input, old(position))
        decreases |input| - position
      {
        var member := ParseMember();
        if member.Err? {
          return member.PropagateFailure();
        }
        if HasKey(result, member.value.key) {
          return Err(position, "duplicate object key");
        }
        result := Insert(result, member.value);
        SkipWhitespace();
        closed := Consume('}');
        if closed {
          return Ok(Obj(result), position);
        }
        var comma := Consume(',');
        if !comma {
          return Err(position, "expected ',' or '}'");
        }
      }
    }

    method ParseMember() returns (r: Parsed<Member>)
      requires Valid()
      modifies this
      ensures Gives(r, MemberAt(input, old(position)))
      decreases |input| - position, 1
    {
      hide ValueAt, StringAt, SkipSpace;
      SkipWhitespace();
      if position >= |input| || input[position] != '"' {
        return Err(position, "expected object key");
      }
      var key := ParseString();
      if key.Err? {
        return key.PropagateFailure();
      }
      SkipWhitespace();
      var colon := Consume(':');
      if !colon {
        return Err(position, "expected ':'");
      }
      SkipWhitespace();
      var value := ParseValue();
      if value.Err? {
        return value.PropagateFailure();
      }
      return Ok(Member(key.value, value.value), position);
    }

    method ParseDocument() returns (r: Parsed<Value>)
      requires Valid() && position == 0
      modifies this
      ensures r == Document(input)
    {
      SkipWhitespace();
      r := ParseValue();
      if r.Err? {
        return;
      }
      SkipWhitespace();
      if position != |input| {
        return Err(position, "trailing content");
      }
      r := Ok(r.value, position);
    }
  }
}
