/**
 What the parser accepts, said without the parser: the spellings of a value in the grammar of RFC 8259, with any
 whitespace between tokens and any escapes in strings.  Parsing accepts exactly these, with their values.
*/
module JsonSpelling {
  import opened JsonValues
  import opened JsonParsing
  import opened JsonRoundTrip

  // Spellings

  predicate IsBlank(w: string) {
    forall k :: 0 <= k < |w| ==> w[k] == ' ' || w[k] == '\n' || w[k] == '\r' || w[k] == '\t'
  }

  /** A hexadecimal digit in either case. */
  predicate DigitMeans(c: char, d: int) {
    (0 <= d < 10 && c as int == '0' as int + d) ||
    (10 <= d < 16 && (c as int == 'a' as int + d - 10 || c as int == 'A' as int + d - 10))
  }

  predicate FourDigits(t: string, n: nat) {
    |t| == 4 && n < 0x1_0000 && DigitMeans(t[0], n / 4096) && DigitMeans(t[1], n / 256 % 16) &&
    DigitMeans(t[2], n / 16 % 16) && DigitMeans(t[3], n % 16)
  }

  predicate ShortMeans(letter: char, c: char) {
    (letter == '"' && c == '"') || (letter == '\\' && c == '\\') || (letter == '/' && c == '/') ||
    (letter == 'b' && c == '\U{0008}') || (letter == 'f' && c == '\U{000c}') || (letter == 'n' && c == '\n') ||
    (letter == 'r' && c == '\r') || (letter == 't' && c == '\t')
  }

  /** One character of a string: itself, a short escape, an escaped code point, or one escaped as a surrogate pair. */
  datatype Piece = Plain(c: char) | Short(letter: char, c: char) | Long(cp: nat, digits: string) | Pair(cp: nat, high: string, low: string)

  predicate LegalPiece(p: Piece) {
    match p
    case Plain(c) => c >= ' ' && c != '"' && c != '\\'
    case Short(letter, c) => ShortMeans(letter, c)
    case Long(cp, digits) => !(0xd800 <= cp <= 0xdfff) && FourDigits(digits, cp)
    case Pair(cp, high, low) =>
      0x1_0000 <= cp < 0x11_0000 && FourDigits(high, 0xd800 + (cp - 0x1_0000) / 0x400) &&
      FourDigits(low, 0xdc00 + (cp - 0x1_0000) % 0x400)
  }

  function PieceText(p: Piece): string {
    match p
    case Plain(c) => [c]
    case Short(letter, _) => ['\\', letter]
    case Long(_, digits) => ['\\', 'u'] + digits
    case Pair(_, high, low) => ['\\', 'u'] + (high + (['\\', 'u'] + low))
  }

  function PieceMeans(p: Piece): string {
    match p
    case Plain(c) => [c]
    case Short(_, c) => [c]
    case Long(cp, _) => if IsScalar(cp) then Utf8(cp) else ""
    case Pair(cp, _, _) => if IsScalar(cp) then Utf8(cp) else ""
  }

  predicate LegalPieces(ps: seq<Piece>) { forall k :: 0 <= k < |ps| ==> LegalPiece(ps[k]) }

  /** With the closing quote. */
  function PiecesText(ps: seq<Piece>): string {
    if ps == [] then ['"'] else PieceText(ps[0]) + PiecesText(ps[1..])
  }

  function PiecesMean(ps: seq<Piece>): string {
    if ps == [] then "" else PieceMeans(ps[0]) + PiecesMean(ps[1..])
  }

  function StringText(ps: seq<Piece>): string { ['"'] + PiecesText(ps) }

  datatype Spelling =
    | NullWord
    | TrueWord
    | FalseWord
    | Numeral(sign: string, whole: string, fraction: string, exponent: string)
    | Text(pieces: seq<Piece>)
    | NoItems(space: string)
    | Items(list: List)
    | NoFields(space: string)
    | Fields(dict: Dict)

  datatype List =
    | LastItem(before: string, item: Spelling, after: string)
    | MoreItems(before: string, item: Spelling, after: string, rest: List)

  datatype Dict =
    | LastField(before: string, key: seq<Piece>, mid: string, gap: string, value: Spelling, after: string)
    | MoreFields(before: string, key: seq<Piece>, mid: string, gap: string, value: Spelling, after: string, rest: Dict)

  function Render(sp: Spelling): string {
    match sp
    case NullWord => "null"
    case TrueWord => "true"
    case FalseWord => "false"
    case Numeral(sign, whole, fraction, exponent) => sign + whole + fraction + exponent
    case Text(pieces) => StringText(pieces)
    case NoItems(space) => ['['] + (space + ([']'] + ""))
    case Items(list) => ['['] + ListText(list)
    case NoFields(space) => ['{'] + (space + (['}'] + ""))
    case Fields(dict) => ['{'] + DictText(dict)
  }

  function ListText(l: List): string
    decreases l, 1
  {
    l.before + (Render(l.item) + (l.after + ListTail(l)))
  }

  function ListTail(l: List): string
    decreases l, 0
  {
    if l.LastItem? then [']'] + "" else [','] + ListText(l.rest)
  }

  function FieldText(d: Dict): string
    decreases d, 0
  {
    StringText(d.key) + (d.mid + ([':'] + (d.gap + Render(d.value))))
  }

  function DictText(d: Dict): string
    decreases d, 1
  {
    d.before + (FieldText(d) + (d.after + DictTail(d)))
  }

  function DictTail(d: Dict): string
    decreases d, 0
  {
    if d.LastField? then ['}'] + "" else [','] + DictText(d.rest)
  }

  /** Well-formed numbers within range, legal characters, blanks between tokens, and no key twice. */
  predicate Legal(sp: Spelling) {
    match sp
    case Numeral(sign, whole, fraction, exponent) =>
      (sign == "" || sign == "-") && IsInt(whole) && IsFraction(fraction) && IsExponent(exponent) &&
      (fraction + exponent == "" ==> DigitsValue(whole) <= if sign == "-" then -I64_MIN else U64_MAX)
    case Text(pieces) => LegalPieces(pieces)
    case NoItems(space) => IsBlank(space)
    case Items(list) => ListLegal(list)
    case NoFields(space) => IsBlank(space)
    case Fields(dict) => DictLegal(dict, {})
    case _ => true
  }

  predicate ListLegal(l: List) {
    IsBlank(l.before) && Legal(l.item) && IsBlank(l.after) && (l.MoreItems? ==> ListLegal(l.rest))
  }

  predicate DictLegal(d: Dict, keys: set<string>) {
    IsBlank(d.before) && LegalPieces(d.key) && IsBlank(d.mid) && IsBlank(d.gap) && Legal(d.value) && IsBlank(d.after) &&
    PiecesMean(d.key) !in keys && (d.MoreFields? ==> DictLegal(d.rest, keys + {PiecesMean(d.key)}))
  }

  /** The value that a legal spelling stands for. */
  function Means(sp: Spelling): Value
    requires Legal(sp)
  {
    match sp
    case NullWord => Null
    case TrueWord => Bool(true)
    case FalseWord => Bool(false)
    case Numeral(sign, whole, fraction, exponent) =>
      if fraction + exponent != "" then Number(sign + whole + fraction + exponent)
      else if sign == "-" then I64(0 - DigitsValue(whole))
      else U64(DigitsValue(whole))
    case Text(pieces) => Str(PiecesMean(pieces))
    case NoItems(_) => Arr([])
    case Items(list) => Arr(ListMeans(list))
    case NoFields(_) => Obj([])
    case Fields(dict) => Obj(DictMeans(dict, {}, []))
  }

  function ListMeans(l: List): seq<Value>
    requires ListLegal(l)
  {
    [Means(l.item)] + if l.LastItem? then [] else ListMeans(l.rest)
  }

  /** Fields enter the ordered map one after the other. */
  function DictMeans(d: Dict, keys: set<string>, members: seq<Member>): seq<Member>
    requires DictLegal(d, keys)
  {
    var all := Insert(members, Member(PiecesMean(d.key), Means(d.value)));
    if d.LastField? then all else DictMeans(d.rest, keys + {PiecesMean(d.key)}, all)
  }

  ghost predicate SpelledAs(text: string, before: string, sp: Spelling, after: string, v: Value) {
    IsBlank(before) && Legal(sp) && IsBlank(after) && text == before + (Render(sp) + after) && Means(sp) == v
  }

  /** A spelling of the value, with blanks around it, is the whole text. */
  ghost predicate Spells(text: string, v: Value) { exists before, sp, after :: SpelledAs(text, before, sp, after, v) }

  // Positions

  lemma AtJoin(s: string, i: nat, a: string, b: string)
    requires At(s, i, a) && At(s, i + |a|, b)
    ensures At(s, i, a + b)
  {
    assert s[i..i + |a| + |b|] == s[i..i + |a|] + s[i + |a|..i + |a| + |b|];
  }

  lemma AtHere(s: string, i: nat, j: nat)
    requires i <= j <= |s|
    ensures At(s, i, s[i..j])
  {}

  lemma {:induction false} BlankSkips(s: string, i: nat, w: string)
    requires At(s, i, w) && IsBlank(w) && (i + |w| < |s| ==> !IsSpace(s[i + |w|]))
    ensures SkipSpace(s, i) == i + |w|
    decreases |w|
  {
    if w != "" {
      AtChar(s, i, w, 0);
      assert w == [w[0]] + w[1..];
      AtSplit(s, i, [w[0]], w[1..]);
      BlankSkips(s, i + 1, w[1..]);
    }
  }

  lemma {:induction false} SkippedIsBlank(s: string, i: nat)
    requires i <= |s|
    ensures IsBlank(s[i..SkipSpace(s, i)]) && SkipSpace(s, SkipSpace(s, i)) == SkipSpace(s, i)
    decreases |s| - i
  {
    if i < |s| && IsSpace(s[i]) {
      SkippedIsBlank(s, i + 1);
      assert s[i..SkipSpace(s, i)] == [s[i]] + s[i + 1..SkipSpace(s, i)];
    }
  }

  /** A gap before a separator: it ends a number, and skipping it leads to the separator. */
  lemma Gap(s: string, j: nat, w: string, c: char, rest: string)
    requires At(s, j, w + ([c] + rest)) && IsBlank(w) && (c == ',' || c == ']' || c == '}' || c == ':')
    ensures Boundary(s, j) && SkipSpace(s, j) == j + |w| && Has(s, j + |w|, c) && At(s, j + |w| + 1, rest)
  {
    hide SkipSpace;
    AtSplit(s, j, w, [c] + rest);
    SeparatorAt(s, j + |w|, c, rest);
    BlankSkips(s, j, w);
    if w != "" {
      AtChar(s, j, w, 0);
    }
  }

  /** A gap before something that starts with no blank. */
  lemma GapBefore(s: string, i: nat, w: string, t: string)
    requires At(s, i, w + t) && IsBlank(w) && t != "" && !IsSpace(t[0])
    ensures SkipSpace(s, i) == i + |w| && At(s, i + |w|, t) && i + |w| < |s| && s[i + |w|] == t[0]
  {
    hide SkipSpace;
    AtSplit(s, i, w, t);
    AtChar(s, i + |w|, t, 0);
    BlankSkips(s, i, w);
  }

  // The parser reads every spelling

  lemma DigitValue(c: char, d: int)
    ensures DigitMeans(c, d) <==> 0 <= d && HexValue(c) == d
  {}

  lemma FourDigitsRead(t: string, n: nat, s: string, i: nat)
    requires FourDigits(t, n) && At(s, i, t)
    ensures Hex4(s, i) == Ok(n, i + 4)
  {
    hide HexValue, DigitMeans;
    AtChar(s, i, t, 0);
    AtChar(s, i, t, 1);
    AtChar(s, i, t, 2);
    AtChar(s, i, t, 3);
    DigitValue(t[0], n / 4096);
    DigitValue(t[1], n / 256 % 16);
    DigitValue(t[2], n / 16 % 16);
    DigitValue(t[3], n % 16);
    assert HexPrefix(s, i, 1) == n / 4096;
    assert HexPrefix(s, i, 2) == n / 256;
    assert HexPrefix(s, i, 3) == n / 16;
  }

  lemma PieceReads(p: Piece, s: string, i: nat, output: string)
    requires LegalPiece(p) && At(s, i, PieceText(p))
    ensures Chars(s, i, output) == Chars(s, i + |PieceText(p)|, output + PieceMeans(p))
  {
    hide Hex4, FourDigits, Utf8;
    var t := PieceText(p);
    AtChar(s, i, t, 0);
    if !p.Plain? {
      AtChar(s, i, t, 1);
    }
    match p
    case Plain(_) =>
    case Short(_, _) =>
    case Long(cp, digits) =>
      AtSplit(s, i, ['\\', 'u'], digits);
      DigitsAreFour(digits, cp);
      FourDigitsRead(digits, cp, s, i + 2);
    case Pair(cp, high, low) => PairReads(cp, high, low, s, i);
  }

  lemma DigitsAreFour(t: string, n: nat)
    requires FourDigits(t, n)
    ensures |t| == 4 && n < 0x1_0000
  {}

  lemma PairReads(cp: nat, high: string, low: string, s: string, i: nat)
    requires LegalPiece(Pair(cp, high, low)) && At(s, i, PieceText(Pair(cp, high, low)))
    ensures Unicode(s, i + 2) == Ok(cp, i + 12) && |high| == |low| == 4 && i + 12 <= |s|
  {
    hide Hex4, FourDigits, At, PieceText;
    PairText(cp, high, low);
    var h, l := 0xd800 + (cp - 0x1_0000) / 0x400, 0xdc00 + (cp - 0x1_0000) % 0x400;
    DigitsAreFour(high, h);
    DigitsAreFour(low, l);
    AtSplit(s, i, ['\\', 'u'], high + (['\\', 'u'] + low));
    AtSplit(s, i + 2, high, ['\\', 'u'] + low);
    AtSplit(s, i + 6, ['\\', 'u'], low);
    AtChar(s, i + 6, ['\\', 'u'], 0);
    AtChar(s, i + 6, ['\\', 'u'], 1);
    FourDigitsRead(high, h, s, i + 2);
    FourDigitsRead(low, l, s, i + 8);
  }

  lemma PairText(cp: nat, high: string, low: string)
    ensures PieceText(Pair(cp, high, low)) == ['\\', 'u'] + (high + (['\\', 'u'] + low))
  {}

  lemma {:induction false} PiecesRead(ps: seq<Piece>, s: string, i: nat, output: string)
    requires LegalPieces(ps) && At(s, i, PiecesText(ps))
    ensures Chars(s, i, output) == Ok(output + PiecesMean(ps), i + |PiecesText(ps)|)
    decreases |ps|
  {
    hide Unicode, Utf8, Unescape, PieceText, PieceMeans, LegalPiece, At;
    if ps == [] {
      AtSlice(s, i, ['"']);
      AtChar(s, i, ['"'], 0);
      NothingMore(output);
    } else {
      AtSplit(s, i, PieceText(ps[0]), PiecesText(ps[1..]));
      PieceReads(ps[0], s, i, output);
      PiecesRead(ps[1..], s, i + |PieceText(ps[0])|, output + PieceMeans(ps[0]));
      AppendFirst(output, PieceMeans(ps[0]), PiecesMean(ps[1..]));
    }
  }

  lemma NothingMore(t: string)
    ensures t + "" == t
  {}

  lemma StringReads(ps: seq<Piece>, s: string, i: nat)
    requires LegalPieces(ps) && At(s, i, StringText(ps))
    ensures StringAt(s, i) == Ok(PiecesMean(ps), i + |StringText(ps)|) && Has(s, i, '"')
  {
    hide Chars, PiecesText, PiecesMean;
    AtSplit(s, i, ['"'], PiecesText(ps));
    AtChar(s, i, ['"'], 0);
    PiecesRead(ps, s, i + 1, "");
    assert "" + PiecesMean(ps) == PiecesMean(ps);
  }

  lemma NumeralReads(sp: Spelling, s: string, i: nat)
    requires sp.Numeral? && Legal(sp) && At(s, i, Render(sp)) && Boundary(s, i + |Render(sp)|)
    ensures NumberAt(s, i) == Ok(Means(sp), i + |Render(sp)|)
    ensures i < |s| && (s[i] == '-' || IsDigit(s[i]))
  {
    hide NumberAt, IsInt, IsFraction, IsExponent, At, DigitsValue;
    AtFour(s, i, sp.sign, sp.whole, sp.fraction, sp.exponent);
    SignAt(s, i, sp.sign, sp.whole);
    if sp.fraction + sp.exponent != "" {
      NumberTokenAt(s, i, sp.sign, sp.whole, sp.fraction, sp.exponent);
    } else {
      WholeNumberAt(s, i, sp.sign, sp.whole);
    }
  }

  lemma WholeNumberAt(s: string, i: nat, sign: string, whole: string)
    requires (sign == "" || sign == "-") && IsInt(whole) && At(s, i, sign) && At(s, i + |sign|, whole)
    requires Boundary(s, i + |sign| + |whole|) && DigitsValue(whole) <= if sign == "-" then -I64_MIN else U64_MAX
    ensures NumberAt(s, i) ==
            Ok(if sign == "-" then I64(0 - DigitsValue(whole)) else U64(DigitsValue(whole)), i + |sign| + |whole|)
  {
    hide NumberAt, DigitsValue, At, IsInt, IsDigit, Has;
    var start, end := i + |sign|, i + |sign| + |whole|;
    AtSlice(s, start, whole);
    SignAt(s, i, sign, whole);
    NoFractionAt(s, start, whole);
    PlainNumber(s, i, start, end);
  }

  lemma NoFractionAt(s: string, i: nat, whole: string)
    requires IsInt(whole) && At(s, i, whole) && At(s, i + |whole|, "") && Boundary(s, i + |whole|)
    ensures Whole(s, i) == Ok((), i + |whole|)
    ensures Fraction(s, i + |whole|) == Ok((), i + |whole|) && Exponent(s, i + |whole|) == Ok((), i + |whole|)
  {
    hide SkipDigits, Whole, Fraction, Exponent;
    WholeAt(s, i, whole);
    FractionAt(s, i + |whole|, "");
    ExponentAt(s, i + |whole|, "");
  }

  lemma PlainNumber(s: string, i: nat, start: nat, end: nat)
    requires i <= start <= end <= |s| && start == if Has(s, i, '-') then i + 1 else i
    requires Whole(s, start) == Ok((), end) && Fraction(s, end) == Ok((), end) && Exponent(s, end) == Ok((), end)
    ensures IsInt(s[start..end])
    ensures NumberAt(s, i) ==
            if i < start then
              if DigitsValue(s[start..end]) > -I64_MIN then Err(end, "signed integer out of range")
              else Ok(I64(0 - DigitsValue(s[start..end])), end)
            else if DigitsValue(s[start..end]) > U64_MAX then Err(end, "unsigned integer out of range")
            else Ok(U64(DigitsValue(s[start..end])), end)
  {
    hide SkipDigits, Whole, Fraction, Exponent, DigitsValue;
  }

  lemma AtSlice(s: string, i: nat, t: string)
    requires At(s, i, t)
    ensures i + |t| <= |s| && s[i..i + |t|] == t && At(s, i + |t|, "")
  {}

  lemma Starts(sp: Spelling)
    requires Legal(sp)
    ensures Render(sp) != "" && StartsValue(Render(sp)[0])
  {
    match sp
    case Numeral(sign, whole, fraction, exponent) =>
      assert Render(sp)[0] == if sign == "" then whole[0] else '-';
      assert IsDigit(whole[0]);
    case _ =>
  }

  lemma {:induction false} ValueReads(sp: Spelling, s: string, i: nat)
    requires Legal(sp) && At(s, i, Render(sp)) && Boundary(s, i + |Render(sp)|)
    ensures ValueAt(s, i) == Ok(Means(sp), i + |Render(sp)|)
    decreases sp, 1
  {
    hide *;
    match sp
    case Numeral(_, _, _, _) => NumeralIsRead(sp, s, i);
    case Text(_) => TextIsRead(sp, s, i);
    case Items(_) => ArrayReads(sp, s, i);
    case Fields(_) => ObjectReads(sp, s, i);
    case _ => WordReads(sp, s, i);
  }

  lemma NumeralIsRead(sp: Spelling, s: string, i: nat)
    requires sp.Numeral? && Legal(sp) && At(s, i, Render(sp)) && Boundary(s, i + |Render(sp)|)
    ensures ValueAt(s, i) == Ok(Means(sp), i + |Render(sp)|)
  {
    hide NumberAt, Boundary, At, Legal, Means, Render, StringAt, ItemsAt, MembersAt, SkipSpace;
    NumeralReads(sp, s, i);
  }

  lemma TextIsRead(sp: Spelling, s: string, i: nat)
    requires sp.Text? && Legal(sp) && At(s, i, Render(sp))
    ensures ValueAt(s, i) == Ok(Means(sp), i + |Render(sp)|)
  {
    hide NumberAt, StringText, At, LegalPieces, StringAt, ItemsAt, MembersAt, SkipSpace;
    StringReads(sp.pieces, s, i);
  }

  lemma WordReads(sp: Spelling, s: string, i: nat)
    requires !sp.Numeral? && !sp.Text? && !sp.Items? && !sp.Fields? && Legal(sp) && At(s, i, Render(sp))
    ensures ValueAt(s, i) == Ok(Means(sp), i + |Render(sp)|)
  {
    hide NumberAt, StringAt, ItemsAt, MembersAt, SkipSpace, IsBlank, Boundary;
    match sp
    case NullWord => AtChar(s, i, "null", 0);
    case TrueWord => AtChar(s, i, "true", 0);
    case FalseWord => AtChar(s, i, "false", 0);
    case NoItems(space) =>
      AtSplit(s, i, ['['], space + ([']'] + ""));
      AtChar(s, i, ['['], 0);
      Gap(s, i + 1, space, ']', "");
    case NoFields(space) =>
      AtSplit(s, i, ['{'], space + (['}'] + ""));
      AtChar(s, i, ['{'], 0);
      Gap(s, i + 1, space, '}', "");
  }

  lemma {:induction false} ArrayReads(sp: Spelling, s: string, i: nat)
    requires sp.Items? && Legal(sp) && At(s, i, Render(sp))
    ensures ValueAt(s, i) == Ok(Means(sp), i + |Render(sp)|)
    decreases sp, 0
  {
    hide NumberAt, StringAt, ItemsAt, MembersAt, SkipSpace, ListText, ListMeans, ListLegal;
    AtSplit(s, i, ['['], ListText(sp.list));
    AtSlice(s, i, ['[']);
    AtChar(s, i, ['['], 0);
    hide At, Has;
    ListReads(sp.list, s, i + 1, []);
    ListStarts(sp.list, s, i + 1);
    assert [] + ListMeans(sp.list) == ListMeans(sp.list);
  }

  lemma {:induction false} ObjectReads(sp: Spelling, s: string, i: nat)
    requires sp.Fields? && Legal(sp) && At(s, i, Render(sp))
    ensures ValueAt(s, i) == Ok(Means(sp), i + |Render(sp)|)
    decreases sp, 0
  {
    hide NumberAt, StringAt, ItemsAt, MembersAt, SkipSpace, DictText, DictMeans;
    AtSplit(s, i, ['{'], DictText(sp.dict));
    AtSlice(s, i, ['{']);
    AtChar(s, i, ['{'], 0);
    hide At, Has;
    assert IsBlank(sp.dict.before);
    hide DictLegal;
    NoKeys();
    DictReads(sp.dict, s, i + 1, {}, []);
    DictStarts(sp.dict, s, i + 1);
  }

  lemma NoKeys()
    ensures forall k :: HasKey([], k) <==> k in {}
  {}

  /** The first item is not a closing bracket, and where its blanks are skipped makes no difference. */
  lemma ListStarts(l: List, s: string, i: nat)
    requires ListLegal(l) && At(s, i, ListText(l))
    ensures !Has(s, SkipSpace(s, i), ']') && ItemsAt(s, SkipSpace(s, i), []) == ItemsAt(s, i, [])
  {
    hide ValueAt, SkipSpace, Render, Legal;
    Starts(l.item);
    SkippedIsBlank(s, i);
    GapBefore(s, i, l.before, Render(l.item) + (l.after + ListTail(l)));
  }

  lemma {:induction false} ListReads(l: List, s: string, i: nat, items: seq<Value>)
    requires ListLegal(l) && At(s, i, ListText(l))
    ensures ItemsAt(s, i, items) == Ok(Arr(items + ListMeans(l)), i + |ListText(l)|)
    decreases l
  {
    hide ValueAt, SkipSpace, Render, Legal, Means, At, IsBlank, Boundary, IsSpace;
    ItemStarts(l.item, l.after + ListTail(l));
    var start := i + |l.before|;
    var end := start + |Render(l.item)|;
    GapBefore(s, i, l.before, Render(l.item) + (l.after + ListTail(l)));
    AtSplit(s, start, Render(l.item), l.after + ListTail(l));
    if l.LastItem? {
      Gap(s, end, l.after, ']', "");
      ValueReads(l.item, s, start);
      JustOne(Means(l.item));
    } else {
      Gap(s, end, l.after, ',', ListText(l.rest));
      ValueReads(l.item, s, start);
      ListReads(l.rest, s, end + |l.after| + 1, items + [Means(l.item)]);
      OneMore(items, Means(l.item), ListMeans(l.rest));
    }
  }

  lemma OneMore<T>(items: seq<T>, item: T, rest: seq<T>)
    ensures items + [item] + rest == items + ([item] + rest)
  {}

  lemma JustOne<T>(item: T)
    ensures [item] + [] == [item]
  {}

  lemma ItemStarts(sp: Spelling, rest: string)
    requires Legal(sp)
    ensures Render(sp) + rest != "" && !IsSpace((Render(sp) + rest)[0])
  {
    Starts(sp);
  }

  lemma DictStarts(d: Dict, s: string, i: nat)
    requires At(s, i, DictText(d)) && IsBlank(d.before)
    ensures !Has(s, SkipSpace(s, i), '}') && MembersAt(s, SkipSpace(s, i), []) == MembersAt(s, i, [])
  {
    hide ValueAt, SkipSpace, Render, PiecesText, StringAt;
    SkippedIsBlank(s, i);
    GapBefore(s, i, d.before, FieldText(d) + (d.after + DictTail(d)));
  }

  lemma FieldStarts(d: Dict)
    ensures FieldText(d) != "" && FieldText(d)[0] == '"' && !IsSpace(FieldText(d)[0])
  {}

  /** One field, up to the gap behind its value. */
  lemma {:induction false} FieldReads(d: Dict, s: string, i: nat, keys: set<string>)
    requires DictLegal(d, keys) && At(s, i, d.before + FieldText(d)) && Boundary(s, i + |d.before + FieldText(d)|)
    ensures MemberAt(s, i) == Ok(Member(PiecesMean(d.key), Means(d.value)), i + |d.before + FieldText(d)|)
    decreases d, 0
  {
    hide ValueAt, SkipSpace, Render, Legal, Means, StringAt, StringText, PiecesMean, At, IsBlank, LegalPieces, Boundary, IsSpace;
    Starts(d.value);
    var start := i + |d.before|;
    var end := start + |StringText(d.key)|;
    var value := end + |d.mid| + 1 + |d.gap|;
    var rest := d.mid + ([':'] + (d.gap + Render(d.value)));
    FieldStarts(d);
    GapBefore(s, i, d.before, FieldText(d));
    AtSplit(s, start, StringText(d.key), rest);
    StringReads(d.key, s, start);
    Gap(s, end, d.mid, ':', d.gap + Render(d.value));
    GapBefore(s, end + |d.mid| + 1, d.gap, Render(d.value));
    ValueReads(d.value, s, value);
  }

  lemma {:induction false} DictReads(d: Dict, s: string, i: nat, keys: set<string>, members: seq<Member>)
    requires DictLegal(d, keys) && At(s, i, DictText(d)) && forall k :: HasKey(members, k) <==> k in keys
    ensures MembersAt(s, i, members) == Ok(Obj(DictMeans(d, keys, members)), i + |DictText(d)|)
    decreases d, 1
  {
    hide MemberAt, SkipSpace, Render, Legal, Means, PiecesText, PiecesMean, Insert, HasKey, FieldText, At, IsBlank, Boundary;
    hide LegalPieces;
    var field, tail := d.before + FieldText(d), d.after + DictTail(d);
    var end := i + |field|;
    assert DictText(d) == field + tail;
    AtSplit(s, i, field, tail);
    var m := Member(PiecesMean(d.key), Means(d.value));
    InsertKeys(members, m);
    if d.LastField? {
      Gap(s, end, d.after, '}', "");
      FieldReads(d, s, i, keys);
    } else {
      Gap(s, end, d.after, ',', DictText(d.rest));
      FieldReads(d, s, i, keys);
      DictReads(d.rest, s, end + |d.after| + 1, keys + {m.key}, Insert(members, m));
    }
  }

  lemma {:induction false} InsertHas(members: seq<Member>, m: Member)
    ensures forall x :: x in Insert(members, m) <==> x == m || x in members
  {
    if members != [] && !KeyLess(m.key, members[0].key) {
      InsertHas(members[1..], m);
      assert members == [members[0]] + members[1..];
    }
  }

  lemma InsertKeys(members: seq<Member>, m: Member)
    ensures forall k :: HasKey(Insert(members, m), k) <==> HasKey(members, k) || k == m.key
  {
    InsertHas(members, m);
    var all := Insert(members, m);
    forall k
      ensures HasKey(all, k) <==> HasKey(members, k) || k == m.key
    {
      if j :| 0 <= j < |members| && members[j].key == k {
        assert members[j] in all;
      }
      if j :| 0 <= j < |all| && all[j].key == k {
        assert all[j] in all;
      }
      assert m in all;
    }
  }

  // Whatever the parser accepts is a spelling

  lemma HexSpelled(s: string, i: nat, n: nat)
    requires i <= |s| && Hex4(s, i) == Ok(n, i + 4)
    ensures i + 4 <= |s| && FourDigits(s[i..i + 4], n)
  {
    hide HexValue, DigitMeans;
    var t := s[i..i + 4];
    assert t[0] == s[i] && t[1] == s[i + 1] && t[2] == s[i + 2] && t[3] == s[i + 3];
    var a, b, c, d := HexValue(s[i]), HexValue(s[i + 1]), HexValue(s[i + 2]), HexValue(s[i + 3]);
    DigitBelow(s[i]);
    DigitBelow(s[i + 1]);
    DigitBelow(s[i + 2]);
    DigitBelow(s[i + 3]);
    assert HexPrefix(s, i, 1) == a && HexPrefix(s, i, 2) == 16 * a + b;
    assert HexPrefix(s, i, 3) == 16 * (16 * a + b) + c && n == 16 * (16 * (16 * a + b) + c) + d;
    hide HexPrefix, Hex4;
    FourParts(a, b, c, d, n);
    DigitValue(s[i], a);
    DigitValue(s[i + 1], b);
    DigitValue(s[i + 2], c);
    DigitValue(s[i + 3], d);
  }

  lemma FourParts(a: int, b: int, c: int, d: int, n: int)
    requires 0 <= a < 16 && 0 <= b < 16 && 0 <= c < 16 && 0 <= d < 16 && n == 16 * (16 * (16 * a + b) + c) + d
    ensures n / 4096 == a && n / 256 % 16 == b && n / 16 % 16 == c && n % 16 == d
  {}

  lemma DigitBelow(c: char)
    ensures -1 <= HexValue(c) < 16
  {}

  lemma UnicodeSpelled(s: string, i: nat) returns (p: Piece)
    requires i + 2 <= |s| && s[i] == '\\' && s[i + 1] == 'u' && Unicode(s, i + 2).Ok?
    ensures LegalPiece(p) && At(s, i, PieceText(p)) && Unicode(s, i + 2).next == i + |PieceText(p)|
    ensures PieceMeans(p) == Utf8(Unicode(s, i + 2).value)
  {
    hide Hex4, FourDigits, Utf8;
    var high := Hex4(s, i + 2).value;
    HexSpelled(s, i + 2, high);
    assert s[i..i + 6] == ['\\', 'u'] + s[i + 2..i + 6];
    if 0xd800 <= high <= 0xdbff {
      var low := Hex4(s, i + 8).value;
      HexSpelled(s, i + 8, low);
      p := Pair(Unicode(s, i + 2).value, s[i + 2..i + 6], s[i + 8..i + 12]);
      assert s[i..i + 12] == s[i..i + 6] + (['\\', 'u'] + s[i + 8..i + 12]);
    } else {
      p := Long(high, s[i + 2..i + 6]);
    }
  }

  lemma PieceSpelled(s: string, i: nat, output: string) returns (p: Piece)
    requires i < |s| && s[i] != '"' && Chars(s, i, output).Ok?
    ensures LegalPiece(p) && At(s, i, PieceText(p)) && PieceText(p) != ""
    ensures Chars(s, i, output) == Chars(s, i + |PieceText(p)|, output + PieceMeans(p))
  {
    hide Unicode, Utf8, FourDigits;
    if s[i] != '\\' {
      p := Plain(s[i]);
    } else if s[i + 1] == 'u' {
      p := UnicodeSpelled(s, i);
    } else {
      p := Short(s[i + 1], Unescape(s[i + 1])[0]);
      assert s[i..i + 2] == ['\\', s[i + 1]];
    }
  }

  lemma {:induction false} CharsSpelled(s: string, i: nat, output: string) returns (ps: seq<Piece>)
    requires i <= |s| && Chars(s, i, output).Ok?
    ensures LegalPieces(ps) && At(s, i, PiecesText(ps))
    ensures Chars(s, i, output) == Ok(output + PiecesMean(ps), i + |PiecesText(ps)|)
    decreases |s| - i
  {
    hide Unicode, Utf8, Unescape, PieceText, PieceMeans, LegalPiece;
    if s[i] == '"' {
      ps := [];
      NothingMore(output);
    } else {
      var p := PieceSpelled(s, i, output);
      var rest := CharsSpelled(s, i + |PieceText(p)|, output + PieceMeans(p));
      ps := [p] + rest;
      FirstPiece(p, rest);
      AtJoin(s, i, PieceText(p), PiecesText(rest));
      AppendFirst(output, PieceMeans(p), PiecesMean(rest));
    }
  }

  lemma FirstPiece(p: Piece, rest: seq<Piece>)
    requires LegalPiece(p) && LegalPieces(rest)
    ensures LegalPieces([p] + rest)
    ensures PiecesText([p] + rest) == PieceText(p) + PiecesText(rest)
    ensures PiecesMean([p] + rest) == PieceMeans(p) + PiecesMean(rest)
  {
    hide LegalPiece, PieceText, PieceMeans;
    assert ([p] + rest)[1..] == rest;
  }

  lemma StringSpelled(s: string, i: nat) returns (ps: seq<Piece>)
    requires i <= |s| && StringAt(s, i).Ok?
    ensures LegalPieces(ps) && At(s, i, StringText(ps)) && StringAt(s, i) == Ok(PiecesMean(ps), i + |StringText(ps)|)
  {
    hide Chars, PiecesText, PiecesMean;
    ps := CharsSpelled(s, i + 1, "");
    assert "" + PiecesMean(ps) == PiecesMean(ps);
    AtHere(s, i, i + 1);
    assert s[i..i + 1] == ['"'];
    AtJoin(s, i, ['"'], PiecesText(ps));
  }

  lemma NumberSpelled(s: string, i: nat) returns (sp: Spelling)
    requires i <= |s| && NumberAt(s, i).Ok?
    ensures Legal(sp) && At(s, i, Render(sp)) && NumberAt(s, i) == Ok(Means(sp), i + |Render(sp)|)
  {
    hide SkipDigits, Whole, Fraction, Exponent, DigitsValue, IsInt, IsFraction, IsExponent;
    var start := if Has(s, i, '-') then i + 1 else i;
    var k := Whole(s, start).next;
    var f := Fraction(s, k).next;
    var e := Exponent(s, f).next;
    sp := Numeral(s[i..start], s[start..k], s[k..f], s[f..e]);
    Split(s, i, start, k);
    Split(s, i, k, f);
    Split(s, i, f, e);
    assert |s[k..f] + s[f..e]| == e - k;
    if k == e {
      assert s[start..e] == s[start..k];
    }
  }

  lemma {:induction false} ValueSpelled(s: string, i: nat) returns (sp: Spelling)
    requires i <= |s| && ValueAt(s, i).Ok?
    ensures Legal(sp) && At(s, i, Render(sp)) && ValueAt(s, i) == Ok(Means(sp), i + |Render(sp)|)
    decreases |s| - i, 0
  {
    hide NumberAt, StringAt, ItemsAt, MembersAt, SkipSpace, IsInt, IsFraction, IsExponent, IsBlank, LegalPieces;
    hide StringText, ListText, DictText;
    match s[i]
    case 'n' => sp := NullWord;
    case 't' => sp := TrueWord;
    case 'f' => sp := FalseWord;
    case '"' =>
      var ps := StringSpelled(s, i);
      sp := Text(ps);
    case '[' => sp := ArraySpelled(s, i);
    case '{' => sp := ObjectSpelled(s, i);
    case _ => sp := NumberSpelled(s, i);
  }

  /** Brackets with nothing but blanks in between. */
  lemma EmptySpelled(s: string, i: nat, open: char, close: char)
    requires i < |s| && s[i] == open && Has(s, SkipSpace(s, i + 1), close)
    ensures
      var j := SkipSpace(s, i + 1);
      IsBlank(s[i + 1..j]) && At(s, i, [open] + (s[i + 1..j] + ([close] + "")))
  {
    var j := SkipSpace(s, i + 1);
    SkippedIsBlank(s, i + 1);
    assert [close] + "" == [close];
    assert s[i..j + 1] == [open] + (s[i + 1..j] + [close]);
  }

  lemma {:induction false} ArraySpelled(s: string, i: nat) returns (sp: Spelling)
    requires i < |s| && s[i] == '[' && ValueAt(s, i).Ok?
    ensures Legal(sp) && At(s, i, Render(sp)) && ValueAt(s, i) == Ok(Means(sp), i + |Render(sp)|)
    decreases |s| - i, -1
  {
    hide NumberAt, StringAt, ItemsAt, MembersAt, SkipSpace, IsBlank, ListText, ListLegal, ListMeans, At;
    var j := SkipSpace(s, i + 1);
    if Has(s, j, ']') {
      EmptySpelled(s, i, '[', ']');
      sp := NoItems(s[i + 1..j]);
    } else {
      SkipTwiceItems(s, i + 1);
      var list := ItemsSpelled(s, i + 1, []);
      assert [] + ListMeans(list) == ListMeans(list);
      sp := Items(list);
      CharJoin(s, i, ListText(list));
    }
  }

  lemma CharJoin(s: string, i: nat, t: string)
    requires i < |s| && At(s, i + 1, t)
    ensures At(s, i, [s[i]] + t)
  {
    assert s[i..i + 1] == [s[i]];
    AtJoin(s, i, [s[i]], t);
  }

  lemma SkipTwiceItems(s: string, i: nat)
    requires i <= |s|
    ensures ItemsAt(s, SkipSpace(s, i), []) == ItemsAt(s, i, [])
  {
    hide ValueAt, SkipSpace;
    SkippedIsBlank(s, i);
  }

  lemma SkipTwiceMembers(s: string, i: nat)
    requires i <= |s|
    ensures MembersAt(s, SkipSpace(s, i), []) == MembersAt(s, i, [])
  {
    hide ValueAt, SkipSpace, StringAt;
    SkippedIsBlank(s, i);
  }

  /** Blanks, something, blanks and the rest, one after the other. */
  lemma AtThree(s: string, i: nat, j: nat, t: string, k: nat, rest: string)
    requires i <= j <= |s| && At(s, j, t) && j + |t| <= k <= |s| && At(s, k, rest)
    ensures At(s, i, s[i..j] + (t + (s[j + |t|..k] + rest)))
    ensures |s[i..j] + (t + (s[j + |t|..k] + rest))| == k + |rest| - i
  {
    AtHere(s, i, j);
    AtHere(s, j + |t|, k);
    AtJoin(s, j + |t|, s[j + |t|..k], rest);
    AtJoin(s, j, t, s[j + |t|..k] + rest);
    AtJoin(s, i, s[i..j], t + (s[j + |t|..k] + rest));
  }

  lemma CloseAt(s: string, j: nat, close: char)
    requires Has(s, j, close)
    ensures At(s, j, [close] + "")
  {
    assert s[j..j + 1] == [close] + "";
  }

  lemma {:induction false} ItemsSpelled(s: string, i: nat, items: seq<Value>) returns (l: List)
    requires i <= |s| && ItemsAt(s, i, items).Ok?
    ensures ListLegal(l) && At(s, i, ListText(l))
    ensures ItemsAt(s, i, items) == Ok(Arr(items + ListMeans(l)), i + |ListText(l)|)
    decreases |s| - i, 1
  {
    hide ValueAt, SkipSpace, Render, Legal, Means, IsBlank, At;
    var start := SkipSpace(s, i);
    var end := ValueAt(s, start).next;
    var j := SkipSpace(s, end);
    var item := ValueSpelled(s, start);
    SkippedIsBlank(s, i);
    SkippedIsBlank(s, end);
    if Has(s, j, ']') {
      l := LastItem(s[i..start], item, s[end..j]);
      CloseAt(s, j, ']');
      AtThree(s, i, start, Render(item), j, [']'] + "");
      JustOne(Means(item));
    } else {
      var rest := ItemsSpelled(s, j + 1, items + [Means(item)]);
      l := MoreItems(s[i..start], item, s[end..j], rest);
      CharJoin(s, j, ListText(rest));
      AtThree(s, i, start, Render(item), j, [','] + ListText(rest));
      OneMore(items, Means(item), ListMeans(rest));
    }
  }

  lemma {:induction false} ObjectSpelled(s: string, i: nat) returns (sp: Spelling)
    requires i < |s| && s[i] == '{' && ValueAt(s, i).Ok?
    ensures Legal(sp) && At(s, i, Render(sp)) && ValueAt(s, i) == Ok(Means(sp), i + |Render(sp)|)
    decreases |s| - i, -1
  {
    hide NumberAt, StringAt, ItemsAt, MembersAt, SkipSpace, IsBlank, DictText, DictLegal, DictMeans, At;
    var j := SkipSpace(s, i + 1);
    if Has(s, j, '}') {
      EmptySpelled(s, i, '{', '}');
      sp := NoFields(s[i + 1..j]);
    } else {
      SkipTwiceMembers(s, i + 1);
      NoKeys();
      var dict := MembersSpelled(s, i + 1, {}, []);
      sp := Fields(dict);
      CharJoin(s, i, DictText(dict));
    }
  }

  /** What a field is made of, its place and the gap behind it still open. */
  lemma {:induction false} MemberSpelled(s: string, i: nat) returns (d: Dict)
    requires i <= |s| && MemberAt(s, i).Ok?
    ensures d.LastField? && IsBlank(d.before) && LegalPieces(d.key) && IsBlank(d.mid) && IsBlank(d.gap) && Legal(d.value)
    ensures |d.before| == SkipSpace(s, i) - i && d.before == s[i..SkipSpace(s, i)] && At(s, SkipSpace(s, i), FieldText(d))
    ensures MemberAt(s, i) == Ok(Member(PiecesMean(d.key), Means(d.value)), SkipSpace(s, i) + |FieldText(d)|)
    decreases |s| - i, 1
  {
    hide ValueAt, SkipSpace, StringAt, Render, Legal, Means, IsBlank, At, LegalPieces, StringText, PiecesMean;
    var start := SkipSpace(s, i);
    var key := StringSpelled(s, start);
    var end := StringAt(s, start).next;
    var colon := SkipSpace(s, end);
    var at := SkipSpace(s, colon + 1);
    var value := ValueSpelled(s, at);
    SkippedIsBlank(s, i);
    SkippedIsBlank(s, end);
    SkippedIsBlank(s, colon + 1);
    d := LastField(s[i..start], key, s[end..colon], s[colon + 1..at], value, "");
    AtHere(s, colon + 1, at);
    AtJoin(s, colon + 1, s[colon + 1..at], Render(value));
    CharJoin(s, colon, s[colon + 1..at] + Render(value));
    AtHere(s, end, colon);
    AtJoin(s, end, s[end..colon], [':'] + (s[colon + 1..at] + Render(value)));
    AtJoin(s, start, StringText(key), s[end..colon] + ([':'] + (s[colon + 1..at] + Render(value))));
  }

  lemma {:induction false} MembersSpelled(s: string, i: nat, keys: set<string>, members: seq<Member>) returns (d: Dict)
    requires i <= |s| && MembersAt(s, i, members).Ok? && forall k :: HasKey(members, k) <==> k in keys
    ensures DictLegal(d, keys) && At(s, i, DictText(d))
    ensures MembersAt(s, i, members) == Ok(Obj(DictMeans(d, keys, members)), i + |DictText(d)|)
    decreases |s| - i, 2
  {
    hide MemberAt, SkipSpace, Render, Legal, Means, IsBlank, At, LegalPieces, StringText, PiecesMean, HasKey, Insert;
    var f := MemberSpelled(s, i);
    var start, end := SkipSpace(s, i), MemberAt(s, i).next;
    var j := SkipSpace(s, end);
    var m := MemberAt(s, i).value;
    SkippedIsBlank(s, end);
    InsertKeys(members, m);
    if Has(s, j, '}') {
      d := LastField(f.before, f.key, f.mid, f.gap, f.value, s[end..j]);
      assert FieldText(d) == FieldText(f);
      hide FieldText;
      CloseAt(s, j, '}');
      AtThree(s, i, start, FieldText(f), j, ['}'] + "");
    } else {
      var rest := MembersSpelled(s, j + 1, keys + {m.key}, Insert(members, m));
      d := MoreFields(f.before, f.key, f.mid, f.gap, f.value, s[end..j], rest);
      assert FieldText(d) == FieldText(f);
      hide FieldText;
      CharJoin(s, j, DictText(rest));
      AtThree(s, i, start, FieldText(f), j, [','] + DictText(rest));
    }
  }

  // Documents

  lemma SpelledReads(text: string, before: string, sp: Spelling, after: string, v: Value)
    requires SpelledAs(text, before, sp, after, v)
    ensures Document(text) == Ok(v, |text|)
  {
    hide ValueAt, SkipSpace, Render, Legal, Means, IsBlank, At;
    AtWhole(text, before + (Render(sp) + after));
    ItemStarts(sp, after);
    GapBefore(text, 0, before, Render(sp) + after);
    AtSplit(text, |before|, Render(sp), after);
    EndsText(text, |before| + |Render(sp)|, after);
    ValueReads(sp, text, |before|);
  }

  lemma AtWhole(text: string, t: string)
    requires text == t
    ensures At(text, 0, t)
  {}

  lemma EndsText(s: string, i: nat, w: string)
    requires At(s, i, w) && IsBlank(w) && i + |w| == |s|
    ensures Boundary(s, i) && SkipSpace(s, i) == |s|
  {
    BlankSkips(s, i, w);
    if w != "" {
      AtChar(s, i, w, 0);
    }
  }

  lemma ReadIsSpelled(text: string)
    requires Document(text).Ok?
    ensures Spells(text, Document(text).value)
  {
    hide ValueAt, SkipSpace, Render, Legal, Means, IsBlank;
    var start := SkipSpace(text, 0);
    var end := ValueAt(text, start).next;
    var sp := ValueSpelled(text, start);
    SkippedIsBlank(text, 0);
    SkippedIsBlank(text, end);
    assert text[0..start] + (text[start..end] + text[end..]) == text;
    assert text[end..|text|] == text[end..];
    assert SpelledAs(text, text[0..start], sp, text[end..], Document(text).value);
  }

  /** Parsing succeeds on exactly the spellings, and gives the value that was spelled. */
  lemma DocumentIff(text: string, v: Value)
    ensures Document(text) == Ok(v, |text|) <==> Spells(text, v)
  {
    hide Document;
    if Spells(text, v) {
      var before, sp, after :| SpelledAs(text, before, sp, after, v);
      SpelledReads(text, before, sp, after, v);
    }
    if Document(text).Ok? {
      ReadIsSpelled(text);
    }
  }
}
