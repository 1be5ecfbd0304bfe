/** Canonicalization of JSON text, and what escapes and surrogate pairs denote. */
module JsonCanonical {
  import opened JsonValues
  import opened JsonParsing
  import opened JsonRoundTrip
  import JsonSpelling

  // Everything a parse returns is well formed

  lemma {:induction false} ParsedIsWellFormed(s: string, i: nat)
    requires i <= |s| && ValueAt(s, i).Ok?
    ensures WellFormed(ValueAt(s, i).value)
    decreases |s| - i, 0
  {
    hide NumberAt, StringAt, ItemsAt, MembersAt, SkipSpace;
    match s[i]
    case 'n' =>
    case 't' =>
    case 'f' =>
    case '"' =>
    case '[' =>
      var j := SkipSpace(s, i + 1);
      if !Has(s, j, ']') {
        ItemsAreWellFormed(s, j, []);
      }
    case '{' =>
      var j := SkipSpace(s, i + 1);
      if !Has(s, j, '}') {
        MembersAreWellFormed(s, j, []);
      }
    case _ => NumberIsWellFormed(s, i);
  }

  lemma {:induction false} ItemsAreWellFormed(s: string, i: nat, items: seq<Value>)
    requires i <= |s| && ItemsAt(s, i, items).Ok? && WellFormed(Arr(items))
    ensures WellFormed(ItemsAt(s, i, items).value)
    decreases |s| - i, 1
  {
    hide ValueAt, SkipSpace;
    var start := SkipSpace(s, i);
    ParsedIsWellFormed(s, start);
    var j := SkipSpace(s, ValueAt(s, start).next);
    if Has(s, j, ',') {
      ItemsAreWellFormed(s, j + 1, items + [ValueAt(s, start).value]);
    }
  }

  lemma {:induction false} MembersAreWellFormed(s: string, i: nat, members: seq<Member>)
    requires i <= |s| && MembersAt(s, i, members).Ok? && WellFormed(Obj(members))
    ensures WellFormed(MembersAt(s, i, members).value)
    decreases |s| - i, 2
  {
    hide MemberAt, SkipSpace, Insert, HasKey, KeyLess;
    MemberIsWellFormed(s, i);
    var m := MemberAt(s, i).value;
    InsertWellFormed(members, m);
    var j := SkipSpace(s, MemberAt(s, i).next);
    if Has(s, j, ',') {
      MembersAreWellFormed(s, j + 1, Insert(members, m));
    }
  }

  lemma {:induction false} MemberIsWellFormed(s: string, i: nat)
    requires i <= |s| && MemberAt(s, i).Ok?
    ensures WellFormed(MemberAt(s, i).value.value)
    decreases |s| - i, 1
  {
    hide ValueAt, StringAt, SkipSpace;
    var start := SkipSpace(s, i);
    var colon := SkipSpace(s, StringAt(s, start).next);
    ParsedIsWellFormed(s, SkipSpace(s, colon + 1));
  }

  lemma InsertWellFormed(members: seq<Member>, m: Member)
    requires WellFormed(Obj(members)) && WellFormed(m.value) && !HasKey(members, m.key)
    ensures WellFormed(Obj(Insert(members, m)))
  {
    hide Insert, HasKey, KeyLess;
    InsertAscending(members, m);
    forall k | 0 <= k < |Insert(members, m)|
      ensures WellFormed(Insert(members, m)[k].value)
    {
      assert Insert(members, m)[k] in Insert(members, m);
    }
  }

  // Canonicalization

  function Canonicalize(text: string): Parsed<string> {
    var v :- Document(text);
    Ok(Print(v), |text|)
  }

  /** Canonical text parses to the value it was printed from. */
  lemma CanonicalReparses(v: Value)
    requires WellFormed(v)
    ensures Document(Print(v)) == Ok(Norm(v), |Print(v)|)
  {
    hide ValueAt, SkipSpace, Print;
    var t := Print(v);
    assert At(t, 0, t + "") by { assert t + "" == t; }
    TextStarts(t, 0, v, "");
    ValueRoundTrip(v, t, 0);
    assert SkipSpace(t, |t|) == |t|;
  }

  lemma DocumentIsWellFormed(text: string)
    requires Document(text).Ok?
    ensures WellFormed(Document(text).value)
  {
    hide ValueAt, SkipSpace;
    ParsedIsWellFormed(text, SkipSpace(text, 0));
  }

  /** Canonicalizing twice is canonicalizing once. */
  lemma CanonicalizeIdempotent(text: string)
    requires Canonicalize(text).Ok?
    ensures
      var canonical := Canonicalize(text).value;
      Canonicalize(canonical) == Ok(canonical, |canonical|)
  {
    var v := Document(text).value;
    DocumentIsWellFormed(text);
    CanonicalReparses(v);
    NormPrintsAlike(v);
  }

  /** Two texts canonicalize alike exactly when their values agree up to the sign of zero. */
  lemma CanonicalizeDecidesEquality(a: string, b: string)
    requires Document(a).Ok? && Document(b).Ok?
    ensures Canonicalize(a).value == Canonicalize(b).value <==> Norm(Document(a).value) == Norm(Document(b).value)
  {
    var v, w := Document(a).value, Document(b).value;
    DocumentIsWellFormed(a);
    DocumentIsWellFormed(b);
    CanonicalReparses(v);
    CanonicalReparses(w);
    NormPrintsAlike(v);
    NormPrintsAlike(w);
  }

  lemma SpellingsCanonicalize(text: string)
    ensures Canonicalize(text).Ok? <==> exists v :: JsonSpelling.Spells(text, v)
    ensures forall v :: JsonSpelling.Spells(text, v) ==> Canonicalize(text) == Ok(Print(v), |text|)
  {
    hide Document, Print, JsonSpelling.Spells;
    forall v
      ensures Document(text) == Ok(v, |text|) <==> JsonSpelling.Spells(text, v)
    {
      JsonSpelling.DocumentIff(text, v);
    }
    if Document(text).Ok? {
      assert JsonSpelling.Spells(text, Document(text).value);
    }
  }

  /** The parser and the printer as the source runs them compute exactly that. */
  method CanonicalizeText(text: string) returns (r: Parsed<string>)
    ensures r == Canonicalize(text)
    ensures r.Ok? <==> exists v :: JsonSpelling.Spells(text, v)
    ensures forall v :: JsonSpelling.Spells(text, v) ==> r == Ok(Print(v), |text|)
  {
    SpellingsCanonicalize(text);
    hide JsonSpelling.Spells;
    var parser := new Parser(text);
    var v := parser.ParseDocument();
    if v.Err? {
      return v.PropagateFailure();
    }
    var printer := new Printer();
    printer.AppendCanonical(v.value);
    assert "" + Print(v.value) == Print(v.value);
    return Ok(printer.output, |text|);
  }

  // Unicode escapes

  function Hex(n: nat): (h: string)
    requires n < 0x1_0000
    ensures |h| == 4
  {
    [HexDigit(n / 4096), HexDigit(n / 256 % 16), HexDigit(n / 16 % 16), HexDigit(n % 16)]
  }

  /** The escape of a code point as RFC 8259 section 7 spells it, without the first `\u`. */
  function Spell(cp: nat): string
    requires IsScalar(cp)
  {
    if cp < 0x1_0000 then Hex(cp)
    else Hex(0xd800 + (cp - 0x1_0000) / 0x400) + ("\\u" + Hex(0xdc00 + (cp - 0x1_0000) % 0x400))
  }

  lemma HexReads(n: nat, s: string, i: nat)
    requires n < 0x1_0000 && At(s, i, Hex(n))
    ensures Hex4(s, i) == Ok(n, i + 4)
  {
    hide HexDigit, HexValue;
    AtChar(s, i, Hex(n), 0);
    AtChar(s, i, Hex(n), 1);
    AtChar(s, i, Hex(n), 2);
    AtChar(s, i, Hex(n), 3);
    HexDigitValue(n / 4096);
    HexDigitValue(n / 256 % 16);
    HexDigitValue(n / 16 % 16);
    HexDigitValue(n % 16);
    assert HexPrefix(s, i, 1) == n / 4096;
    assert HexPrefix(s, i, 2) == n / 256;
    assert HexPrefix(s, i, 3) == n / 16;
  }

  /** Every code point, in one escape or in a surrogate pair, is read back; `Unicode` yields nothing else. */
  lemma SpellingReads(cp: nat, s: string, i: nat)
    requires IsScalar(cp) && At(s, i, Spell(cp))
    ensures Unicode(s, i) == Ok(cp, i + |Spell(cp)|)
  {
    hide Hex4, Hex, At;
    if cp < 0x1_0000 {
      HexReads(cp, s, i);
    } else {
      var high, low := 0xd800 + (cp - 0x1_0000) / 0x400, 0xdc00 + (cp - 0x1_0000) % 0x400;
      AtSplit(s, i, Hex(high), "\\u" + Hex(low));
      HexReads(high, s, i);
      AtSplit(s, i + 4, "\\u", Hex(low));
      AtChar(s, i + 4, "\\u", 0);
      AtChar(s, i + 4, "\\u", 1);
      HexReads(low, s, i + 6);
    }
  }

  /** UTF-8 decoding (RFC 3629 section 3) of one code point at the start of `t`. */
  function Utf8Decode(t: string): (cp: int)
    requires t != ""
  {
    var b0 := t[0] as int;
    if b0 < 0x80 then b0
    else if b0 < 0xe0 && |t| >= 2 then (b0 - 0xc0) * 64 + (t[1] as int - 0x80)
    else if b0 < 0xf0 && |t| >= 3 then ((b0 - 0xe0) * 64 + (t[1] as int - 0x80)) * 64 + (t[2] as int - 0x80)
    else if |t| >= 4 then
      (((b0 - 0xf0) * 64 + (t[1] as int - 0x80)) * 64 + (t[2] as int - 0x80)) * 64 + (t[3] as int - 0x80)
    else -1
  }

  lemma Utf8Decodes(cp: nat)
    requires IsScalar(cp)
    ensures Utf8Decode(Utf8(cp)) == cp
    ensures |Utf8(cp)| == if cp < 0x80 then 1 else if cp < 0x800 then 2 else if cp < 0x1_0000 then 3 else 4
  {
    assert cp / 4096 == cp / 64 / 64 && cp / 262144 == cp / 4096 / 64;
  }
}
