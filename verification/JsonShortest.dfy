/** Of all the texts that stand for a value the canonical one is a shortest: no blanks, and no escape that could go. */
module JsonShortest {
  import opened JsonValues
  import opened JsonParsing
  import opened JsonSpelling

  // Strings

  /** Characters that escaping makes of a text. */
  function Escaped(t: string): nat { if t == "" then 0 else |EscapeChar(t[0])| + Escaped(t[1..]) }

  lemma {:induction false} EscapedLength(t: string, k: nat)
    requires k <= |t|
    ensures |EscapedFrom(t, k)| == 1 + Escaped(t[k..])
    decreases |t| - k
  {
    hide EscapeChar;
    if k < |t| {
      EscapedLength(t, k + 1);
      assert t[k..][0] == t[k] && t[k..][1..] == t[k + 1..];
    }
  }

  lemma QuotedLength(t: string)
    ensures |Quoted(t)| == 2 + Escaped(t)
  {
    EscapedLength(t, 0);
    assert t[0..] == t;
  }

  lemma {:induction false} EscapedJoins(a: string, b: string)
    ensures Escaped(a + b) == Escaped(a) + Escaped(b)
  {
    hide EscapeChar;
    if a == "" {
      assert a + b == b;
    } else {
      assert (a + b)[0] == a[0] && (a + b)[1..] == a[1..] + b;
      EscapedJoins(a[1..], b);
    }
  }

  /** Characters that need no escape, and those that a short one serves. */
  lemma OneEscaped(c: char)
    ensures |EscapeChar(c)| <= 6 && (c >= ' ' && c != '"' && c != '\\' ==> |EscapeChar(c)| == 1)
    ensures c == '"' || c == '\\' || c == '\U{0008}' || c == '\U{000c}' || c == '\n' || c == '\r' || c == '\t' ==>
      |EscapeChar(c)| == 2
  {}

  lemma {:induction false} HighIsPlain(t: string)
    requires forall k :: 0 <= k < |t| ==> t[k] as int >= 0x80
    ensures Escaped(t) == |t|
  {
    if t != "" {
      OneEscaped(t[0]);
      hide EscapeChar;
      HighIsPlain(t[1..]);
    }
  }

  lemma CodePointEscaped(cp: nat)
    requires IsScalar(cp)
    ensures Escaped(Utf8(cp)) <= 6
  {
    var t := Utf8(cp);
    if cp < 0x80 {
      OneEscaped(cp as char);
      hide EscapeChar;
      assert t[1..] == "";
    } else {
      HighIsPlain(t);
    }
  }

  lemma PieceIsNoShorter(p: Piece)
    requires LegalPiece(p)
    ensures Escaped(PieceMeans(p)) <= |PieceText(p)|
  {
    match p
    case Plain(c) => OneCharacter(c);
    case Short(_, c) => OneCharacter(c);
    case Long(cp, _) => if IsScalar(cp) { CodePointEscaped(cp); }
    case Pair(cp, _, _) => if IsScalar(cp) { CodePointEscaped(cp); }
  }

  lemma OneCharacter(c: char)
    ensures Escaped([c]) == |EscapeChar(c)|
    ensures c >= ' ' && c != '"' && c != '\\' ==> Escaped([c]) == 1
    ensures c >= ' ' || c == '\U{0008}' || c == '\U{000c}' || c == '\n' || c == '\r' || c == '\t' ==> Escaped([c]) <= 2
  {
    OneEscaped(c);
    hide EscapeChar;
    assert [c][1..] == "";
  }

  lemma {:induction false} PiecesAreNoShorter(ps: seq<Piece>)
    requires LegalPieces(ps)
    ensures 1 + Escaped(PiecesMean(ps)) <= |PiecesText(ps)|
  {
    hide PieceText, PieceMeans, LegalPiece;
    if ps != [] {
      PieceIsNoShorter(ps[0]);
      PiecesAreNoShorter(ps[1..]);
      EscapedJoins(PieceMeans(ps[0]), PiecesMean(ps[1..]));
    }
  }

  lemma StringIsNoShorter(ps: seq<Piece>)
    requires LegalPieces(ps)
    ensures |Quoted(PiecesMean(ps))| <= |StringText(ps)|
  {
    PiecesAreNoShorter(ps);
    QuotedLength(PiecesMean(ps));
  }

  // Numbers

  lemma {:induction false} DecimalIsNoLonger(t: string)
    requires IsDigits(t)
    ensures |Decimal(DigitsValue(t))| <= |t|
  {
    var n, front := DigitsValue(t), t[..|t| - 1];
    if n >= 10 {
      assert IsDigit(t[|t| - 1]);
      assert front != "";
      assert n / 10 == DigitsValue(front);
      DecimalIsNoLonger(front);
    }
  }

  // Containers

  /** What the items take, each with what follows it. */
  function ItemsSize(items: seq<Value>): nat {
    if items == [] then 0 else |Print(items[0])| + 1 + ItemsSize(items[1..])
  }

  lemma {:induction false} ItemsLength(v: Value, k: nat)
    requires v.Arr? && k <= |v.items|
    ensures |ItemsFrom(v, k)| == (if 0 < k || v.items == [] then 1 else 0) + ItemsSize(v.items[k..])
    decreases |v.items| - k
  {
    if k < |v.items| {
      ItemsLength(v, k + 1);
      assert v.items[k..][0] == v.items[k] && v.items[k..][1..] == v.items[k + 1..];
    }
  }

  lemma ArrayLength(items: seq<Value>)
    ensures |Print(Arr(items))| == (if items == [] then 2 else 1 + ItemsSize(items))
  {
    ItemsLength(Arr(items), 0);
    assert items[0..] == items;
  }

  function MemberSize(m: Member): nat { |Quoted(m.key)| + |Print(m.value)| + 2 }

  function MembersSize(members: seq<Member>): nat {
    if members == [] then 0 else MemberSize(members[0]) + MembersSize(members[1..])
  }

  lemma {:induction false} MembersLength(v: Value, k: nat)
    requires v.Obj? && k <= |v.members|
    ensures |MembersFrom(v, k)| == (if 0 < k || v.members == [] then 1 else 0) + MembersSize(v.members[k..])
    decreases |v.members| - k
  {
    hide Quoted;
    if k < |v.members| {
      MembersLength(v, k + 1);
      assert v.members[k..][0] == v.members[k] && v.members[k..][1..] == v.members[k + 1..];
    }
  }

  lemma ObjectLength(members: seq<Member>)
    ensures |Print(Obj(members))| == (if members == [] then 2 else 1 + MembersSize(members))
  {
    MembersLength(Obj(members), 0);
    assert members[0..] == members;
  }

  lemma {:induction false} InsertedSize(members: seq<Member>, m: Member)
    ensures MembersSize(Insert(members, m)) == MembersSize(members) + MemberSize(m) && Insert(members, m) != []
  {
    hide MemberSize, KeyLess;
    if members == [] || KeyLess(m.key, members[0].key) {
      assert ([m] + members)[1..] == members;
    } else {
      InsertedSize(members[1..], m);
      assert ([members[0]] + Insert(members[1..], m))[1..] == Insert(members[1..], m);
    }
  }

  lemma {:induction false} ListIsNoShorter(l: List)
    requires ListLegal(l)
    ensures ListMeans(l) != [] && ItemsSize(ListMeans(l)) <= |ListText(l)|
    decreases l, 0
  {
    hide Legal, Means, Render;
    ValueIsNoShorter(l.item);
    if l.LastItem? {
      assert ListMeans(l)[1..] == [];
    } else {
      ListIsNoShorter(l.rest);
      assert ListMeans(l)[1..] == ListMeans(l.rest);
    }
  }

  lemma {:induction false} DictIsNoShorter(d: Dict, keys: set<string>, members: seq<Member>)
    requires DictLegal(d, keys)
    ensures DictMeans(d, keys, members) != []
    ensures MembersSize(DictMeans(d, keys, members)) <= MembersSize(members) + |DictText(d)|
    decreases d, 0
  {
    hide Legal, Means, Render, MembersSize, PiecesMean, StringText, Quoted;
    var m := Member(PiecesMean(d.key), Means(d.value));
    ValueIsNoShorter(d.value);
    StringIsNoShorter(d.key);
    InsertedSize(members, m);
    if d.MoreFields? {
      DictIsNoShorter(d.rest, keys + {PiecesMean(d.key)}, Insert(members, m));
    }
  }

  lemma {:induction false} ValueIsNoShorter(sp: Spelling)
    requires Legal(sp)
    ensures |Print(Means(sp))| <= |Render(sp)|
    decreases sp, 1
  {
    match sp
    case NullWord =>
    case TrueWord =>
    case FalseWord =>
    case Numeral(sign, whole, fraction, exponent) => NumeralIsNoShorter(sp);
    case Text(pieces) => StringIsNoShorter(pieces);
    case NoItems(_) => ArrayLength([]);
    case Items(list) =>
      ListIsNoShorter(list);
      ArrayLength(ListMeans(list));
    case NoFields(_) => ObjectLength([]);
    case Fields(dict) =>
      DictIsNoShorter(dict, {}, []);
      ObjectLength(DictMeans(dict, {}, []));
  }

  lemma NumeralIsNoShorter(sp: Spelling)
    requires sp.Numeral? && Legal(sp)
    ensures |Print(Means(sp))| <= |Render(sp)|
  {
    hide Decimal;
    DecimalIsNoLonger(sp.whole);
    hide DigitsValue;
  }

  /** No text that stands for a value is shorter than the canonical one. */
  lemma CanonicalIsShortest(text: string, v: Value)
    requires Spells(text, v)
    ensures |Print(v)| <= |text|
  {
    hide Legal, Means, Render, Print;
    var before, sp, after :| SpelledAs(text, before, sp, after, v);
    ValueIsNoShorter(sp);
  }
}
