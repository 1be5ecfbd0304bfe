/**
 Regions cut from fused source tensors, and the validator's walk over them: sorted, they must follow one
 another from the first byte of the tensor to the last.
 */
module Tiling {
  import opened Options

  datatype Span = Span(start: nat, end: nat)

  predicate Proper(s: seq<Span>, size: nat) { forall x :: x in s ==> x.start <= x.end <= size }

  predicate Before(a: Span, b: Span) { a.start < b.start || (a.start == b.start && a.end <= b.end) }

  // What the walk is for

  function Covers(x: Span, b: nat): nat { if x.start <= b < x.end then 1 else 0 }

  /** How often a byte is covered. */
  function Count(s: seq<Span>, b: nat): nat {
    if s == [] then 0 else Covers(s[0], b) + Count(s[1..], b)
  }

  /** An empty span strictly inside another one. */
  predicate Inside(e: Span, x: Span) { e.start == e.end && x.start < e.start < x.end }

  /** Every byte exactly once, and no empty span in the middle of another. */
  ghost predicate TilesExactly(s: seq<Span>, size: nat) {
    (forall b: nat :: Count(s, b) == if b < size then 1 else 0) &&
    forall e, x :: e in s && x in s ==> !Inside(e, x)
  }

  // Sorting

  function Insert(x: Span, s: seq<Span>): (r: seq<Span>)
    ensures multiset(r) == multiset(s) + multiset{x}
  {
    if s == [] || Before(x, s[0]) then
      [x] + s
    else
      assert s == [s[0]] + s[1..];
      [s[0]] + Insert(x, s[1..])
  }

  function Sorted(s: seq<Span>): (r: seq<Span>)
    ensures multiset(r) == multiset(s)
  {
    if s == [] then []
    else
      assert s == [s[0]] + s[1..];
      Insert(s[0], Sorted(s[1..]))
  }

  predicate Ordered(s: seq<Span>) {
    s == [] || ((forall x :: x in s[1..] ==> Before(s[0], x)) && Ordered(s[1..]))
  }

  lemma InMultiset(s: seq<Span>, x: Span)
    ensures x in s <==> x in multiset(s)
  {}

  lemma {:induction false} InsertOrdered(x: Span, s: seq<Span>)
    requires Ordered(s)
    ensures Ordered(Insert(x, s))
  {
    if s == [] {
      assert Insert(x, s)[1..] == [];
    } else if Before(x, s[0]) {
      assert Insert(x, s)[1..] == s;
      assert s == [s[0]] + s[1..];
    } else {
      var rest := Insert(x, s[1..]);
      assert Insert(x, s)[1..] == rest;
      InsertOrdered(x, s[1..]);
      forall y | y in rest
        ensures Before(s[0], y)
      {
        InMultiset(rest, y);
        InMultiset(s[1..], y);
      }
    }
  }

  lemma {:induction false} SortedOrdered(s: seq<Span>)
    ensures Ordered(Sorted(s))
  {
    if s != [] {
      SortedOrdered(s[1..]);
      InsertOrdered(s[0], Sorted(s[1..]));
    }
  }

  lemma {:induction false} CountRemove(s: seq<Span>, i: nat, b: nat)
    requires i < |s|
    ensures Count(s, b) == Covers(s[i], b) + Count(s[..i] + s[i + 1..], b)
  {
    if i == 0 {
      assert s[..0] + s[1..] == s[1..];
    } else {
      CountRemove(s[1..], i - 1, b);
      var without := s[..i] + s[i + 1..];
      assert without[0] == s[0] && without[1..] == s[1..][..i - 1] + s[1..][i..];
    }
  }

  lemma SameWithoutFirst(s: seq<Span>, t: seq<Span>) returns (i: nat)
    requires s != [] && multiset(s) == multiset(t)
    ensures i < |t| && t[i] == s[0] && multiset(s[1..]) == multiset(t[..i] + t[i + 1..])
  {
    var x := s[0];
    assert x in multiset(s);
    assert x in t;
    i :| 0 <= i < |t| && t[i] == x;
    assert t == t[..i] + [x] + t[i + 1..];
    assert s == [x] + s[1..];
    assert multiset(s[1..]) == multiset(s) - multiset{x};
    assert multiset(t[..i] + t[i + 1..]) == multiset(t) - multiset{x};
  }

  /** Coverage does not depend on the order of the spans. */
  lemma {:induction false} CountSame(s: seq<Span>, t: seq<Span>, b: nat)
    requires multiset(s) == multiset(t)
    ensures Count(s, b) == Count(t, b)
  {
    if s == [] {
      assert |multiset(t)| == |t|;
    } else {
      var i := SameWithoutFirst(s, t);
      CountRemove(t, i, b);
      CountSame(s[1..], t[..i] + t[i + 1..], b);
    }
  }

  // The walk

  predicate Walk(s: seq<Span>, cursor: nat, size: nat) {
    if s == [] then cursor == size else s[0].start == cursor && Walk(s[1..], s[0].end, size)
  }

  lemma {:induction false} WalkTiles(s: seq<Span>, cursor: nat, size: nat)
    requires Proper(s, size) && Walk(s, cursor, size)
    ensures cursor <= size && (forall x :: x in s ==> x.start >= cursor)
    ensures forall b: nat :: Count(s, b) == if cursor <= b < size then 1 else 0
    ensures forall e, x :: e in s && x in s ==> !Inside(e, x)
  {
    if s != [] {
      var rest := s[1..];
      assert s == [s[0]] + rest;
      assert s[0] in s && Proper(rest, size);
      WalkTiles(rest, s[0].end, size);
      forall b: nat
        ensures Count(s, b) == if cursor <= b < size then 1 else 0
      {
        assert Count(s, b) == Covers(s[0], b) + Count(rest, b);
      }
    }
  }

  lemma {:induction false} NotCovered(s: seq<Span>, b: nat)
    requires forall x :: x in s ==> x.start > b
    ensures Count(s, b) == 0
  {
    if s != [] {
      assert s[0] in s;
      assert forall x :: x in s[1..] ==> x in s;
      NotCovered(s[1..], b);
    }
  }

  lemma {:induction false} CoveredBy(s: seq<Span>, x: Span, b: nat)
    requires x in s && x.start <= b < x.end
    ensures Count(s, b) >= 1
  {
    if x != s[0] {
      CoveredBy(s[1..], x, b);
    }
  }

  /** Partial tiling from a cursor on. */
  ghost predicate TilesFrom(s: seq<Span>, cursor: nat, size: nat) {
    (forall b: nat :: cursor <= b < size ==> Count(s, b) == 1) && (forall e, x :: e in s && x in s ==> !Inside(e, x))
  }

  lemma CountedOnce(s: seq<Span>, cursor: nat, size: nat, b: nat)
    requires TilesFrom(s, cursor, size) && cursor <= b < size
    ensures Count(s, b) == 1
  {}

  lemma CoveredTwice(s: seq<Span>, r: Span, b: nat)
    requires s != [] && r in s[1..] && s[0].start <= b < s[0].end && r.start <= b < r.end
    ensures Count(s, b) >= 2
  {
    CoveredBy(s[1..], r, b);
  }

  lemma FirstStarts(s: seq<Span>, cursor: nat, size: nat)
    requires Ordered(s) && Proper(s, size) && (forall x :: x in s ==> x.start >= cursor) && cursor <= size
    requires TilesFrom(s, cursor, size)
    ensures s == [] ==> cursor == size
    ensures s != [] ==> s[0].start == cursor
  {
    if s == [] {
      if cursor < size {
        CountedOnce(s, cursor, size, cursor);
      }
    } else if s[0].start > cursor {
      assert s == [s[0]] + s[1..];
      assert s[0] in s;
      forall x | x in s
        ensures x.start > cursor
      {
        assert x == s[0] || x in s[1..];
      }
      CountedOnce(s, cursor, size, cursor);
      NotCovered(s, cursor);
    }
  }

  lemma RestStarts(s: seq<Span>, cursor: nat, size: nat, r: Span)
    requires s != [] && Ordered(s) && Proper(s, size) && TilesFrom(s, cursor, size) && s[0].start == cursor
    requires r in s[1..]
    ensures r.start >= s[0].end
  {
    var h := s[0];
    assert h in s && r in s && Before(h, r);
    if r.start < h.end {
      assert !Inside(r, h);
      if r.start < r.end {
        CountedOnce(s, cursor, size, r.start);
        CoveredTwice(s, r, r.start);
      }
    }
  }

  lemma {:induction false} TilesWalk(s: seq<Span>, cursor: nat, size: nat)
    requires Ordered(s) && Proper(s, size) && (forall x :: x in s ==> x.start >= cursor) && cursor <= size
    requires TilesFrom(s, cursor, size)
    ensures Walk(s, cursor, size)
  {
    FirstStarts(s, cursor, size);
    if s != [] {
      var h, rest := s[0], s[1..];
      assert h in s && forall x :: x in rest ==> x in s;
      forall r | r in rest
        ensures r.start >= h.end
      {
        RestStarts(s, cursor, size, r);
      }
      forall b: nat | h.end <= b < size
        ensures Count(rest, b) == 1
      {
        assert Count(s, b) == Covers(h, b) + Count(rest, b);
        assert Count(s, b) == 1;
      }
      TilesWalk(rest, h.end, size);
    }
  }

  /** For spans in any order the sorted walk succeeds exactly for tilings. */
  lemma WalkIffTiles(s: seq<Span>, size: nat)
    requires Proper(s, size)
    ensures Walk(Sorted(s), 0, size) <==> TilesExactly(s, size)
  {
    var t := Sorted(s);
    SortedOrdered(s);
    forall x
      ensures x in t <==> x in s
    {
      InMultiset(s, x);
      InMultiset(t, x);
    }
    forall b: nat
      ensures Count(t, b) == Count(s, b)
    {
      CountSame(t, s, b);
    }
    if Walk(t, 0, size) {
      WalkTiles(t, 0, size);
    }
    if TilesExactly(s, size) {
      TilesWalk(t, 0, size);
    }
  }

  /** The validator's check of one physical tensor. */
  method CheckTiling(spans: seq<Span>, size: nat) returns (ok: bool)
    requires Proper(spans, size)
    ensures ok <==> TilesExactly(spans, size)
  {
    WalkIffTiles(spans, size);
    var rest, cursor := Sorted(spans), 0;
    while rest != []
      invariant Walk(Sorted(spans), 0, size) <==> Walk(rest, cursor, size)
      decreases |rest|
    {
      if rest[0].start != cursor { return false; }
      cursor, rest := rest[0].end, rest[1..];
    }
    ok := cursor == size;
  }

  // The adapters' regions

  /** Gate and up halves of every expert, one after the other. */
  function GateUpSpans(experts: nat, half: nat): seq<Span> {
    if experts == 0 then []
    else
      var base := 2 * (experts - 1) * half;
      GateUpSpans(experts - 1, half) + [Span(base, base + half), Span(base + half, base + half + half)]
  }

  function DownSpans(experts: nat, bytes: nat): seq<Span> {
    if experts == 0 then []
    else
      var base := (experts - 1) * bytes;
      DownSpans(experts - 1, bytes) + [Span(base, base + bytes)]
  }

  lemma {:induction false} WalkJoins(a: seq<Span>, b: seq<Span>, cursor: nat, mid: nat, size: nat)
    requires Walk(a, cursor, mid)
    ensures Walk(a + b, cursor, size) == Walk(b, mid, size)
  {
    if a == [] {
      assert a + b == b;
    } else {
      assert (a + b)[1..] == a[1..] + b;
      WalkJoins(a[1..], b, a[0].end, mid, size);
    }
  }

  lemma {:induction false} WalkIsProper(s: seq<Span>, cursor: nat, size: nat)
    requires Walk(s, cursor, size) && forall x :: x in s ==> x.start <= x.end
    ensures Proper(s, size) && cursor <= size
  {
    if s != [] {
      assert s[0] in s && s == [s[0]] + s[1..];
      WalkIsProper(s[1..], s[0].end, size);
    }
  }

  lemma {:induction false} GateUpWalks(experts: nat, half: nat)
    ensures Walk(GateUpSpans(experts, half), 0, 2 * experts * half)
    ensures forall x :: x in GateUpSpans(experts, half) ==> x.start <= x.end
  {
    if experts > 0 {
      var base := 2 * (experts - 1) * half;
      var last := [Span(base, base + half), Span(base + half, base + half + half)];
      GateUpWalks(experts - 1, half);
      assert base + half + half == 2 * experts * half;
      WalkJoins(GateUpSpans(experts - 1, half), last, 0, base, 2 * experts * half);
      TwoSpans(base, half);
    }
  }

  lemma TwoSpans(base: nat, half: nat)
    ensures Walk([Span(base, base + half), Span(base + half, base + half + half)], base, base + half + half)
  {
    assert [Span(base, base + half), Span(base + half, base + half + half)][1..] == [Span(base + half, base + half + half)];
    assert [Span(base + half, base + half + half)][1..] == [];
  }

  lemma {:induction false} DownWalks(experts: nat, bytes: nat)
    ensures Walk(DownSpans(experts, bytes), 0, experts * bytes)
    ensures forall x :: x in DownSpans(experts, bytes) ==> x.start <= x.end
  {
    if experts > 0 {
      var base := (experts - 1) * bytes;
      DownWalks(experts - 1, bytes);
      assert base + bytes == experts * bytes;
      WalkJoins(DownSpans(experts - 1, bytes), [Span(base, base + bytes)], 0, base, experts * bytes);
      assert [Span(base, base + bytes)][1..] == [];
    }
  }

  /** Spans that follow one another tile the tensor, and pass the check in any order. */
  lemma WalkTilesAnyOrder(s: seq<Span>, size: nat, t: seq<Span>)
    requires Walk(s, 0, size) && (forall x :: x in s ==> x.start <= x.end) && multiset(t) == multiset(s)
    ensures Proper(t, size) && TilesExactly(t, size) && Walk(Sorted(t), 0, size)
  {
    hide Count, Walk, Sorted;
    WalkIsProper(s, 0, size);
    WalkTiles(s, 0, size);
    forall x
      ensures x in t <==> x in s
    {
      InMultiset(s, x);
      InMultiset(t, x);
    }
    forall b: nat
      ensures Count(t, b) == Count(s, b)
    {
      CountSame(t, s, b);
    }
    WalkIffTiles(t, size);
  }

  /** For every number of experts, width and element size the fused gate and up regions tile their tensor. */
  lemma GateUpTiles(experts: nat, width: nat, hidden: nat, element: nat, t: seq<Span>)
    requires multiset(t) == multiset(GateUpSpans(experts, width * hidden * element))
    ensures
      var size := experts * (2 * width) * hidden * element;
      Proper(t, size) && TilesExactly(t, size) && Walk(Sorted(t), 0, size)
  {
    hide Walk, TilesExactly, Proper, Sorted, GateUpSpans;
    var half := width * hidden * element;
    GateUpWalks(experts, half);
    WalkTilesAnyOrder(GateUpSpans(experts, half), 2 * experts * half, t);
    FusedSize(experts, width, hidden, element);
  }

  lemma FusedSize(experts: nat, width: nat, hidden: nat, element: nat)
    ensures 2 * experts * (width * hidden * element) == experts * (2 * width) * hidden * element
  {
    var rows := experts * width;
    assert experts * (2 * width) == 2 * rows;
    assert 2 * rows * hidden * element == 2 * (rows * hidden * element);
    assert rows * hidden * element == experts * (width * hidden * element) by {
      assert rows * hidden == experts * (width * hidden);
      assert experts * (width * hidden) * element == experts * (width * hidden * element);
    }
  }

  lemma DownTiles(experts: nat, width: nat, hidden: nat, element: nat, t: seq<Span>)
    requires multiset(t) == multiset(DownSpans(experts, hidden * width * element))
    ensures
      var size := experts * (hidden * width * element);
      Proper(t, size) && TilesExactly(t, size) && Walk(Sorted(t), 0, size)
  {
    hide Walk, TilesExactly, Proper, Sorted, DownSpans;
    DownWalks(experts, hidden * width * element);
    WalkTilesAnyOrder(DownSpans(experts, hidden * width * element), experts * (hidden * width * element), t);
  }

  // Whose region it is

  /** Byte `b` of row `r` of expert `e`, in a tensor with as many rows for each expert. */
  function Position(e: nat, rows: nat, r: nat, rowBytes: nat, b: nat): nat { (e * rows + r) * rowBytes + b }

  /** The span has this byte, that far behind its start. */
  predicate Holds(x: Span, at: nat, within: nat) { x.start <= at < x.end && at - x.start == within }

  lemma RowWithin(e: nat, rows: nat, r: nat, rowBytes: nat, b: nat)
    requires r < rows && b < rowBytes
    ensures Position(e, rows, r, rowBytes, b) == e * (rows * rowBytes) + (r * rowBytes + b)
    ensures r * rowBytes + b < rows * rowBytes
  {
    Regroup(e, rows, r, rowBytes);
    Later(r + 1, rows, rowBytes);
  }

  lemma Regroup(e: nat, rows: nat, r: nat, rowBytes: nat)
    ensures (e * rows + r) * rowBytes == e * (rows * rowBytes) + r * rowBytes
  {}

  lemma Later(r: nat, rows: nat, rowBytes: nat)
    requires r <= rows
    ensures r * rowBytes <= rows * rowBytes && (r * rowBytes == (r - 1) * rowBytes + rowBytes)
  {}

  lemma {:induction false} GateUpAt(experts: nat, half: nat, e: nat)
    requires e < experts
    ensures |GateUpSpans(experts, half)| == 2 * experts
    ensures
      var base := 2 * e * half;
      GateUpSpans(experts, half)[2 * e] == Span(base, base + half) &&
      GateUpSpans(experts, half)[2 * e + 1] == Span(base + half, base + half + half)
  {
    if e < experts - 1 {
      GateUpAt(experts - 1, half, e);
    } else if experts > 1 {
      GateUpAt(experts - 1, half, e - 1);
    }
  }

  lemma {:induction false} DownAt(experts: nat, bytes: nat, e: nat)
    requires e < experts
    ensures |DownSpans(experts, bytes)| == experts && DownSpans(experts, bytes)[e] == Span(e * bytes, e * bytes + bytes)
  {
    if e < experts - 1 {
      DownAt(experts - 1, bytes, e);
    } else if experts > 1 {
      DownAt(experts - 1, bytes, e - 1);
    }
  }

  /**
   Of the rows that the fused tensor has for an expert, the first half are those of its gate region, in order,
   and the others those of its up region.
  */
  lemma GateUpBelongs(experts: nat, width: nat, rowBytes: nat, e: nat, r: nat, b: nat)
    requires e < experts && r < 2 * width && b < rowBytes
    ensures
      var spans, at := GateUpSpans(experts, width * rowBytes), Position(e, 2 * width, r, rowBytes, b);
      |spans| == 2 * experts &&
      if r < width then Holds(spans[2 * e], at, r * rowBytes + b) else Holds(spans[2 * e + 1], at, (r - width) * rowBytes + b)
  {
    hide GateUpSpans, Position, Holds;
    var half := width * rowBytes;
    GateUpAt(experts, half, e);
    if r < width {
      GateRow(e, width, r, rowBytes, b);
    } else {
      UpRow(e, width, r - width, rowBytes, b);
    }
  }

  lemma GateRow(e: nat, width: nat, r: nat, rowBytes: nat, b: nat)
    requires r < width && b < rowBytes
    ensures
      var half := width * rowBytes;
      var base := 2 * e * half;
      Holds(Span(base, base + half), Position(e, 2 * width, r, rowBytes, b), r * rowBytes + b)
  {
    RowWithin(e, 2 * width, r, rowBytes, b);
    RowWithin(0, width, r, rowBytes, b);
    Twice(e, width, rowBytes);
  }

  lemma UpRow(e: nat, width: nat, r: nat, rowBytes: nat, b: nat)
    requires r < width && b < rowBytes
    ensures
      var half := width * rowBytes;
      var base := 2 * e * half;
      Holds(Span(base + half, base + half + half), Position(e, 2 * width, r + width, rowBytes, b), r * rowBytes + b)
  {
    RowWithin(e, 2 * width, r + width, rowBytes, b);
    RowWithin(0, width, r, rowBytes, b);
    Twice(e, width, rowBytes);
    Regroup(1, width, r, rowBytes);
  }

  lemma Twice(e: nat, width: nat, rowBytes: nat)
    ensures e * (2 * width * rowBytes) == 2 * e * (width * rowBytes)
  {
    var half := width * rowBytes;
    assert 2 * width * rowBytes == 2 * half;
  }

  lemma DownBelongs(experts: nat, hidden: nat, rowBytes: nat, e: nat, r: nat, b: nat)
    requires e < experts && r < hidden && b < rowBytes
    ensures
      var spans := DownSpans(experts, hidden * rowBytes);
      |spans| == experts && Holds(spans[e], Position(e, hidden, r, rowBytes, b), r * rowBytes + b)
  {
    DownAt(experts, hidden * rowBytes, e);
    RowWithin(e, hidden, r, rowBytes, b);
  }

  // Cutting a region

  datatype Tensor = Tensor(offset: nat, bytes: nat)

  datatype Region = Region(offset: nat, bytes: nat, within: int)

  /** A region of a tensor, refused when it leaves the tensor. */
  function TensorRegion(physical: Tensor, at: int, bytes: nat): Option<Region> {
    if at < 0 || at + bytes > physical.bytes then None else Some(Region(physical.offset + at, bytes, at))
  }

  /** What opening a region checks again. */
  predicate Opens(physical: Tensor, r: Region, bytes: nat) {
    r.bytes == bytes && r.within >= 0 && r.within + r.bytes <= physical.bytes && r.offset == physical.offset + r.within
  }

  /** Exactly the regions within the tensor are cut, and those open. */
  lemma RegionsOpen(physical: Tensor, at: int, bytes: nat)
    ensures TensorRegion(physical, at, bytes).Some? <==> exists r :: Opens(physical, r, bytes) && r.within == at
    ensures TensorRegion(physical, at, bytes).Some? ==> Opens(physical, TensorRegion(physical, at, bytes).value, bytes)
  {
    if TensorRegion(physical, at, bytes).Some? {
      assert Opens(physical, TensorRegion(physical, at, bytes).value, bytes);
    }
  }
}
