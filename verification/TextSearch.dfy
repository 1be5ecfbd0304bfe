/** Positions of marker strings in a text, and the part of a text that could still become a marker. */
module TextSearch {

  /** Marker `w` occurs in `s` at position `i`. */
  predicate At(s: string, i: int, w: string) {
    0 <= i <= i + |w| <= |s| && s[i..i + |w|] == w
  }

  /** Some marker occurs in `s` at position `i`. */
  predicate AnyAt(ws: seq<string>, s: string, i: int) {
    exists k :: 0 <= k < |ws| && At(s, i, ws[k])
  }

  predicate Contains(ws: seq<string>, s: string) {
    exists i :: 0 <= i <= |s| && AnyAt(ws, s, i)
  }

  /** The leftmost position from `i` on where a marker occurs, or -1. */
  function FirstFrom(ws: seq<string>, s: string, i: nat): (p: int)
    requires i <= |s| + 1
    ensures p == -1 || i <= p <= |s|
    ensures p >= 0 ==> AnyAt(ws, s, p)
    ensures forall j :: i <= j <= |s| && AnyAt(ws, s, j) ==> 0 <= p <= j
    decreases |s| + 1 - i
  {
    if i > |s| then -1 else if AnyAt(ws, s, i) then i else FirstFrom(ws, s, i + 1)
  }

  function First(ws: seq<string>, s: string): (p: int)
    ensures p == -1 || 0 <= p <= |s|
    ensures p >= 0 ==> AnyAt(ws, s, p)
    ensures forall j :: 0 <= j <= |s| && AnyAt(ws, s, j) ==> 0 <= p <= j
    ensures p >= 0 <==> Contains(ws, s)
  {
    FirstFrom(ws, s, 0)
  }

  /** The text from `i` on is a non-empty proper prefix of marker `w`. */
  predicate Opens(s: string, i: int, w: string) {
    0 <= i < |s| && s[i..] < w
  }

  predicate OpenAt(ws: seq<string>, s: string, i: int) {
    exists k :: 0 <= k < |ws| && Opens(s, i, ws[k])
  }

  /** How many trailing characters must be held back: the longest suffix that is a proper marker prefix. */
  function HeldFrom(ws: seq<string>, s: string, i: nat): (h: nat)
    requires i <= |s|
    ensures h <= |s| - i
    ensures h > 0 ==> OpenAt(ws, s, |s| - h)
    ensures forall j :: i <= j < |s| && OpenAt(ws, s, j) ==> |s| - j <= h
    decreases |s| - i
  {
    if i == |s| then 0 else if OpenAt(ws, s, i) then |s| - i else HeldFrom(ws, s, i + 1)
  }

  function Held(ws: seq<string>, s: string): (h: nat)
    ensures h <= |s|
    ensures h > 0 ==> OpenAt(ws, s, |s| - h)
    ensures forall j :: 0 <= j < |s| && OpenAt(ws, s, j) ==> |s| - j <= h
  {
    HeldFrom(ws, s, 0)
  }

  /** Python's `s.find(w)`. */
  method Find(s: string, w: string) returns (p: int)
    ensures p == First([w], s)
  {
    var i := 0;
    while i + |w| <= |s|
      invariant 0 <= i <= |s| + 1
      invariant forall j :: 0 <= j < i ==> !At(s, j, w)
    {
      if s[i..i + |w|] == w {
        assert At(s, i, [w][0]);
        assert AnyAt([w], s, i);
        return i;
      }
      i := i + 1;
    }
    return -1;
  }

  /** Markers that occur in a prefix occur at the same place in the whole text, and back when they fit. */
  lemma AnyAtExtends(ws: seq<string>, s: string, t: string, i: int)
    ensures AnyAt(ws, s, i) ==> AnyAt(ws, s + t, i)
  {
    if AnyAt(ws, s, i) {
      var k :| 0 <= k < |ws| && At(s, i, ws[k]);
      assert (s + t)[i..i + |ws[k]|] == s[i..i + |ws[k]|];
      assert At(s + t, i, ws[k]);
    }
  }

  lemma AnyAtShift(ws: seq<string>, u: string, s: string, i: nat)
    ensures AnyAt(ws, s, i) <==> AnyAt(ws, u + s, |u| + i)
  {
    forall k | 0 <= k < |ws| && |u| + i + |ws[k]| <= |u + s|
      ensures At(s, i, ws[k]) <==> At(u + s, |u| + i, ws[k])
    {
      assert (u + s)[|u| + i..|u| + i + |ws[k]|] == s[i..i + |ws[k]|];
    }
  }

  lemma StraddlingOne(s: string, t: string, i: int, w: string)
    requires 0 <= i < |s| && At(s + t, i, w)
    ensures At(s, i, w) || Opens(s, i, w)
  {
    if i + |w| <= |s| {
      assert (s + t)[i..i + |w|] == s[i..i + |w|];
    } else {
      assert s[i..] == (s + t)[i..i + |w|][..|s| - i];
    }
  }

  /** A marker that starts inside `s` and reaches beyond it leaves a proper prefix of itself at the end of `s`. */
  lemma StraddlingIsOpen(ws: seq<string>, s: string, t: string, i: int)
    requires 0 <= i < |s|
    requires AnyAt(ws, s + t, i)
    ensures AnyAt(ws, s, i) || OpenAt(ws, s, i)
  {
    var k :| 0 <= k < |ws| && At(s + t, i, ws[k]);
    var w := ws[k];
    StraddlingOne(s, t, i, w);
    assert At(s, i, ws[k]) || Opens(s, i, ws[k]);
  }

  function Join(chunks: seq<string>): string {
    if chunks == [] then "" else Join(chunks[..|chunks| - 1]) + chunks[|chunks| - 1]
  }
}
