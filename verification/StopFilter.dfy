/**
 Stop-string filtering of streamed text.  The filter sees the text in arbitrary chunks; what it lets
 through is compared with a single pass over the whole text.
 */
module StopFiltering {
  import opened TextSearch

  /** Everything a filter has done so far: text taken in, text let through, text held back. */
  datatype Trace = Trace(taken: string, emitted: string, pending: string, stopped: bool)

  function Step(stops: seq<string>, t: Trace, text: string): Trace {
    if t.stopped then t
    else
      var combined := t.pending + text;
      var hit := First(stops, combined);
      if hit >= 0 then Trace(t.taken + text, t.emitted + combined[..hit], "", true)
      else
        var cut := |combined| - Held(stops, combined);
        Trace(t.taken + text, t.emitted + combined[..cut], combined[cut..], false)
  }

  function Filter(stops: seq<string>, chunks: seq<string>): Trace {
    if chunks == [] then Trace("", "", "", false)
    else Step(stops, Filter(stops, chunks[..|chunks| - 1]), chunks[|chunks| - 1])
  }

  /** What a client has received once the stream is closed. */
  function Output(stops: seq<string>, chunks: seq<string>): string {
    var t := Filter(stops, chunks);
    if t.stopped then t.emitted else t.emitted + t.pending
  }

  /** The one-pass meaning of stop strings: cut the text before the leftmost one. */
  function Truncate(stops: seq<string>, text: string): string {
    var hit := First(stops, text);
    if hit >= 0 then text[..hit] else text
  }

  class StopFilter {
    const stops: seq<string>
    var pending: string
    var stopped: bool
    ghost var chunks: seq<string>

    ghost predicate Valid()
      reads this
    {
      var t := Filter(stops, chunks);
      pending == t.pending && stopped == t.stopped
    }

    constructor (stops: seq<string>)
      ensures Valid() && this.stops == stops && chunks == []
    {
      this.stops := stops;
      pending, stopped, chunks := "", false, [];
    }

    method Feed(text: string) returns (out: string)
      requires Valid()
      modifies this
      ensures Valid() && chunks == old(chunks) + [text]
      ensures Filter(stops, chunks).emitted == Filter(stops, old(chunks)).emitted + out
    {
      hide First, Held, Output;
      chunks := chunks + [text];
      assert chunks[..|chunks| - 1] == old(chunks);
      if stopped {
        return "";
      }
      var combined := pending + text;
      var hit := EarliestMatch(stops, combined);
      if hit >= 0 {
        pending := "";
        stopped := true;
        return combined[..hit];
      }
      var held := LongestHeld(stops, combined);
      if held > 0 {
        out, pending := combined[..|combined| - held], combined[|combined| - held..];
      } else {
        pending := "";
        out := combined;
      }
    }

    method Finish() returns (out: string)
      requires Valid()
      modifies this`pending
      ensures Output(stops, chunks) == Filter(stops, chunks).emitted + out
      ensures pending == if stopped then old(pending) else ""
    {
      if stopped {
        return "";
      }
      out, pending := pending, "";
    }
  }

  /** The least of the positions at which the stop strings are found, or -1. */
  method EarliestMatch(stops: seq<string>, combined: string) returns (hit: int)
    ensures hit == First(stops, combined)
  {
    hit := -1;
    for k := 0 to |stops|
      invariant hit == First(stops[..k], combined)
    {
      var index := Find(combined, stops[k]);
      FirstOfTwo(stops[..k], stops[k], combined);
      assert stops[..k + 1] == stops[..k] + [stops[k]];
      if index >= 0 && (hit < 0 || index < hit) {
        hit := index;
      }
    }
    assert stops[..|stops|] == stops;
  }

  /** The held suffix as the source looks for it: per stop string, longest size first. */
  method LongestHeld(stops: seq<string>, combined: string) returns (held: nat)
    ensures held == Held(stops, combined)
  {
    held := 0;
    for k := 0 to |stops|
      invariant held <= |combined|
      invariant held > 0 ==> OpenAt(stops, combined, |combined| - held)
      invariant forall j :: 0 <= j < |combined| - held ==> !OpenAt(stops[..k], combined, j)
    {
      var size := LongestOpen(combined, stops[k]);
      ghost var seen := stops[..k + 1];
      assert seen == stops[..k] + [stops[k]];
      forall j | 0 <= j < |combined| - held && j < |combined| - size
        ensures !OpenAt(seen, combined, j)
      {
        assert !OpenAt(stops[..k], combined, j) && !Opens(combined, j, stops[k]);
      }
      if size > held {
        assert Opens(combined, |combined| - size, stops[k]);
        held := size;
      }
    }
    assert stops[..|stops|] == stops;
  }

  method LongestOpen(s: string, w: string) returns (size: nat)
    ensures size <= |s|
    ensures size > 0 ==> Opens(s, |s| - size, w)
    ensures forall j :: 0 <= j < |s| - size ==> !Opens(s, j, w)
  {
    size := if |w| == 0 then 0 else if |w| - 1 < |s| then |w| - 1 else |s|;
    while size > 0
      invariant size <= |s| && (size < |w| || size == 0)
      invariant forall j :: 0 <= j < |s| - size ==> !Opens(s, j, w)
    {
      if s[|s| - size..] == w[..size] {
        return;
      }
      size := size - 1;
    }
  }

  lemma FirstOfTwo(ws: seq<string>, w: string, s: string)
    ensures First(ws + [w], s) ==
            var a, b := First(ws, s), First([w], s);
            if b >= 0 && (a < 0 || b < a) then b else a
  {
    forall i | 0 <= i <= |s|
      ensures AnyAt(ws + [w], s, i) <==> AnyAt(ws, s, i) || AnyAt([w], s, i)
    {
      if AnyAt(ws, s, i) {
        var k :| 0 <= k < |ws| && At(s, i, ws[k]);
        assert At(s, i, (ws + [w])[k]);
      }
      if AnyAt([w], s, i) {
        assert At(s, i, (ws + [w])[|ws|]);
      }
    }
  }

  /** What holds of a trace at every moment. */
  ghost predicate Good(stops: seq<string>, t: Trace) {
    if t.stopped then Contains(stops, t.taken) && t.emitted == t.taken[..First(stops, t.taken)]
    else t.taken == t.emitted + t.pending
  }

  /** No stop string can start inside the emitted text, whatever text comes later. */
  ghost predicate Closed(stops: seq<string>, t: Trace) {
    !t.stopped ==> forall future, p :: 0 <= p < |t.emitted| ==> !AnyAt(stops, t.taken + future, p)
  }

  /** Every run, whatever the chunks. */
  lemma {:induction false} FilterInvariant(stops: seq<string>, chunks: seq<string>)
    ensures
      var t := Filter(stops, chunks);
      Good(stops, t) && Closed(stops, t) && t.taken <= Join(chunks) &&
      (!t.stopped ==> t.taken == Join(chunks)) &&
      (!t.stopped && chunks != [] ==> !Contains(stops, t.taken))
  {
    if chunks != [] {
      var before, text := chunks[..|chunks| - 1], chunks[|chunks| - 1];
      FilterInvariant(stops, before);
      var t := Filter(stops, before);
      if !t.stopped {
        StepKeepsGood(stops, t, text);
        StepKeepsClosed(stops, t, text);
      }
    }
  }

  lemma StepKeepsGood(stops: seq<string>, t: Trace, text: string)
    requires !t.stopped && Good(stops, t) && Closed(stops, t)
    ensures
      var t' := Step(stops, t, text);
      Good(stops, t') && t'.taken == t.taken + text && (t'.stopped <==> Contains(stops, t'.taken))
  {
    hide First, Held;
    TakenStartsClean(stops, t, text);
    ContainsShift(stops, t.emitted, t.pending + text);
    if Contains(stops, t.pending + text) {
      FirstShift(stops, t.emitted, t.pending + text);
    } else {
      Resplit(t.emitted, t.pending + text, |t.pending + text| - Held(stops, t.pending + text));
    }
  }

  lemma Resplit(u: string, s: string, cut: nat)
    requires cut <= |s|
    ensures u + s == (u + s[..cut]) + s[cut..]
  {}

  lemma TakenStartsClean(stops: seq<string>, t: Trace, text: string)
    requires !t.stopped && Good(stops, t) && Closed(stops, t)
    ensures t.taken + text == t.emitted + (t.pending + text)
    ensures forall i :: 0 <= i < |t.emitted| ==> !AnyAt(stops, t.taken + text, i)
  {
    assert t.taken + text == t.emitted + (t.pending + text);
  }

  lemma ContainsShift(ws: seq<string>, u: string, s: string)
    requires forall i :: 0 <= i < |u| ==> !AnyAt(ws, u + s, i)
    ensures Contains(ws, u + s) <==> Contains(ws, s)
  {
    hide First, Held;
    var p, q := First(ws, s), First(ws, u + s);
    if p >= 0 {
      AnyAtShift(ws, u, s, p);
    }
    if q >= 0 {
      AnyAtShift(ws, u, s, q - |u|);
    }
  }

  /** If nothing starts inside `u`, the first hit in `u + s` is the first hit in `s`. */
  lemma FirstShift(ws: seq<string>, u: string, s: string)
    requires Contains(ws, s)
    requires forall i :: 0 <= i < |u| ==> !AnyAt(ws, u + s, i)
    ensures First(ws, u + s) == |u| + First(ws, s)
    ensures (u + s)[..|u| + First(ws, s)] == u + s[..First(ws, s)]
  {
    hide First;
    var p, q := First(ws, s), First(ws, u + s);
    AnyAtShift(ws, u, s, p);
    AnyAtShift(ws, u, s, q - |u|);
  }

  lemma StepKeepsClosed(stops: seq<string>, t: Trace, text: string)
    requires !t.stopped && Good(stops, t) && Closed(stops, t)
    ensures Closed(stops, Step(stops, t, text))
  {
    var t' := Step(stops, t, text);
    if !t'.stopped {
      forall future, p | 0 <= p < |t'.emitted|
        ensures !AnyAt(stops, t'.taken + future, p)
      {
        if p < |t.emitted| {
          assert t'.taken + future == t.taken + (text + future);
        } else {
          NewlyEmittedIsClosed(stops, t, text, future, p - |t.emitted|);
        }
      }
    }
  }

  /** What a step emits was not held back, so no stop string starts there. */
  lemma NewlyEmittedIsClosed(stops: seq<string>, t: Trace, text: string, future: string, i: nat)
    requires !t.stopped && Good(stops, t)
    requires First(stops, t.pending + text) < 0
    requires i < |t.pending + text| - Held(stops, t.pending + text)
    ensures !AnyAt(stops, t.taken + text + future, |t.emitted| + i)
  {
    hide First, Held;
    var combined := t.pending + text;
    assert t.taken + text + future == t.emitted + (combined + future);
    AnyAtShift(stops, t.emitted, combined + future, i);
    assert !AnyAt(stops, combined, i) && !OpenAt(stops, combined, i);
    if AnyAt(stops, combined + future, i) {
      StraddlingIsOpen(stops, combined, future, i);
      assert false;
    }
  }

  /**
   Whenever a proper prefix of a stop string contains a stop string, it already starts with one.
   It is enough that no stop string is a factor of another.
   */
  ghost predicate PrefixSafe(stops: seq<string>) {
    forall k, n :: 0 <= k < |stops| && 0 <= n < |stops[k]| && Contains(stops, stops[k][..n]) ==>
      AnyAt(stops, stops[k][..n], 0)
  }

  ghost predicate NoFactor(stops: seq<string>) {
    forall j, k, i :: 0 <= j < |stops| && 0 <= k < |stops| && At(stops[k], i, stops[j]) ==> stops[j] == stops[k]
  }

  lemma NoFactorIsPrefixSafe(stops: seq<string>)
    requires NoFactor(stops)
    ensures PrefixSafe(stops)
  {
    forall k, n | 0 <= k < |stops| && 0 <= n < |stops[k]|
      ensures !Contains(stops, stops[k][..n])
    {
      forall i, j | 0 <= i <= n && 0 <= j < |stops|
        ensures !At(stops[k][..n], i, stops[j])
      {
        if At(stops[k][..n], i, stops[j]) {
          assert At(stops[k], i, stops[j]);
          assert false;
        }
      }
    }
  }

  /** With prefix-safe stop strings any chunking gives the one-pass result. */
  lemma AnyChunkingTruncates(stops: seq<string>, chunks: seq<string>)
    requires PrefixSafe(stops)
    ensures Output(stops, chunks) == Truncate(stops, Join(chunks))
  {
    hide First, Held;
    FilterInvariant(stops, chunks);
    var t := Filter(stops, chunks);
    if t.stopped {
      FirstIsSettled(stops, t.taken, Join(chunks)[|t.taken|..]);
      assert Join(chunks) == t.taken + Join(chunks)[|t.taken|..];
    }
  }

  /** More text never moves the first hit of prefix-safe stop strings. */
  lemma FirstIsSettled(stops: seq<string>, taken: string, rest: string)
    requires PrefixSafe(stops) && Contains(stops, taken)
    ensures First(stops, taken + rest) == First(stops, taken)
    ensures (taken + rest)[..First(stops, taken)] == taken[..First(stops, taken)]
  {
    hide First, Held;
    var p, q := First(stops, taken), First(stops, taken + rest);
    AnyAtExtends(stops, taken, rest, p);
    if q < p {
      EarlierHitContradicts(stops, taken, rest, q, p);
    }
  }

  /** A stop string that starts before the first completed one would itself begin with a completed one. */
  lemma EarlierHitContradicts(stops: seq<string>, taken: string, rest: string, q: nat, p: nat)
    requires PrefixSafe(stops)
    requires q < p <= |taken| && AnyAt(stops, taken, p) && AnyAt(stops, taken + rest, q)
    ensures AnyAt(stops, taken, q)
  {
    hide First, Held;
    StraddlingIsOpen(stops, taken, rest, q);
    if !AnyAt(stops, taken, q) {
      var k :| 0 <= k < |stops| && Opens(taken, q, stops[k]);
      var head, n := taken[..q], |taken| - q;
      assert taken == head + stops[k][..n];
      AnyAtShift(stops, head, stops[k][..n], p - q);
      AnyAtShift(stops, head, stops[k][..n], 0);
      assert false;
    }
  }

  /** Chunking can never be observed exactly when the stop strings are prefix-safe. */
  lemma ChunkIndependentIff(stops: seq<string>)
    ensures (forall a, b :: Join(a) == Join(b) ==> Output(stops, a) == Output(stops, b)) <==> PrefixSafe(stops)
  {
    hide First, Held;
    if PrefixSafe(stops) {
      forall a, b | Join(a) == Join(b)
        ensures Output(stops, a) == Output(stops, b)
      {
        AnyChunkingTruncates(stops, a);
        AnyChunkingTruncates(stops, b);
      }
    } else {
      var k, n :| 0 <= k < |stops| && 0 <= n < |stops[k]| && Contains(stops, stops[k][..n]) &&
        !AnyAt(stops, stops[k][..n], 0);
      SplitInTwo(stops, k, n);
    }
  }

  /** The counterexample: one stop string, sent whole and sent in two pieces. */
  lemma SplitInTwo(stops: seq<string>, k: nat, n: nat)
    requires k < |stops| && n < |stops[k]|
    requires Contains(stops, stops[k][..n]) && !AnyAt(stops, stops[k][..n], 0)
    ensures Join([stops[k]]) == Join([stops[k][..n], stops[k][n..]])
    ensures Output(stops, [stops[k]]) == "" && Output(stops, [stops[k][..n], stops[k][n..]]) != ""
  {
    var w := stops[k];
    var two := [w[..n], w[n..]];
    assert two[..1] == [w[..n]];
    assert Join([]) == "";
    assert "" + w == w && "" + w[..n] == w[..n];
    assert Join([w[..n]]) == w[..n];
    assert At(w, 0, stops[k]);
    assert First(stops, w) == 0;
    assert Filter(stops, []) == Trace("", "", "", false);
    assert Filter(stops, [w]).emitted == "";
    var t := Filter(stops, [w[..n]]);
    assert First(stops, w[..n]) > 0;
    assert t.stopped && t.emitted == w[..First(stops, w[..n])];
    assert Filter(stops, two) == t;
  }
}
