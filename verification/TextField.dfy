/**
 The streamed text field of a response parser: outer whitespace is dropped, inner whitespace is kept,
 although the end of the text is not known while it streams.
 */
module TextFields {
  /** The characters for which Python's `str.isspace` holds. */
  predicate IsSpace(c: char) {
    9 <= c as int <= 13 || 28 <= c as int <= 32 || c as int in WIDE_SPACES || 0x2000 <= c as int <= 0x200a
  }

  const WIDE_SPACES: set<int> := {0x85, 0xa0, 0x1680, 0x2028, 0x2029, 0x202f, 0x205f, 0x3000}

  predicate SpaceAt(s: string, i: int) { 0 <= i < |s| && IsSpace(s[i]) }

  predicate SpaceRun(s: string, lo: int, hi: int) {
    forall i :: lo <= i < hi ==> SpaceAt(s, i)
  }

  /** Number of leading whitespace characters, the first `i` being known as whitespace. */
  function LeadingFrom(s: string, i: nat): (n: nat)
    requires i <= |s| && SpaceRun(s, 0, i)
    ensures n <= |s| && SpaceRun(s, 0, n) && !SpaceAt(s, n)
    decreases |s| - i
  {
    if SpaceAt(s, i) then LeadingFrom(s, i + 1) else i
  }

  function Leading(s: string): (n: nat)
    ensures n <= |s| && SpaceRun(s, 0, n) && !SpaceAt(s, n)
  {
    LeadingFrom(s, 0)
  }

  /** Number of trailing whitespace characters, the last `n` being known as whitespace. */
  function TrailingFrom(s: string, i: nat): (n: nat)
    requires i <= |s| && SpaceRun(s, |s| - i, |s|)
    ensures n <= |s| && SpaceRun(s, |s| - n, |s|) && !SpaceAt(s, |s| - n - 1)
    decreases |s| - i
  {
    if SpaceAt(s, |s| - i - 1) then TrailingFrom(s, i + 1) else i
  }

  function Trailing(s: string): (n: nat)
    ensures n <= |s| && SpaceRun(s, |s| - n, |s|) && !SpaceAt(s, |s| - n - 1)
  {
    TrailingFrom(s, 0)
  }

  function LStrip(s: string): string { s[Leading(s)..] }

  function RStrip(s: string): string { s[..|s| - Trailing(s)] }

  function Strip(s: string): string { RStrip(LStrip(s)) }

  /** The trailing whitespace that is still ambiguous once the text has started. */
  function Tail(s: string): string { Excess(LStrip(s)) }

  function Excess(s: string): string { s[|s| - Trailing(s)..] }

  /** Whether the text so far stays within the bound on whitespace that may have to be dropped. */
  predicate WithinBound(maximum: nat, s: string) {
    Leading(s) <= maximum && Trailing(LStrip(s)) <= maximum
  }

  lemma LeadingIs(s: string, n: nat)
    requires n <= |s| && SpaceRun(s, 0, n) && !SpaceAt(s, n)
    ensures Leading(s) == n
  {}

  lemma TrailingIs(s: string, n: nat)
    requires n <= |s| && SpaceRun(s, |s| - n, |s|) && !SpaceAt(s, |s| - n - 1)
    ensures Trailing(s) == n
  {}

  /** While only whitespace has been seen, the leading run goes on into the appended text. */
  lemma LeadingGrows(s: string, text: string)
    requires LStrip(s) == ""
    ensures Leading(s + text) == |s| + Leading(text) && LStrip(s + text) == LStrip(text)
  {
    forall i | 0 <= i < |s| + Leading(text)
      ensures SpaceAt(s + text, i)
    {
      assert if i < |s| then SpaceAt(s, i) else SpaceAt(text, i - |s|);
    }
    assert SpaceAt(s + text, |s| + Leading(text)) == SpaceAt(text, Leading(text));
    LeadingIs(s + text, |s| + Leading(text));
  }

  /** After the first non-space the leading run is settled. */
  lemma LeadingSettles(s: string, text: string)
    requires LStrip(s) != ""
    ensures Leading(s + text) == Leading(s) && LStrip(s + text) == LStrip(s) + text
  {
    forall i | 0 <= i <= Leading(s)
      ensures SpaceAt(s + text, i) == SpaceAt(s, i)
    {}
    LeadingIs(s + text, Leading(s));
  }

  lemma StripEmpty(s: string)
    ensures Strip(s) == "" <==> LStrip(s) == ""
  {
    assert SpaceAt(LStrip(s), 0) == SpaceAt(s, Leading(s));
  }

  /** Appending to text that ends in a non-space: the trailing run is that of the appended part. */
  lemma TrailingExtends(u: string, s: string)
    requires !SpaceAt(u, |u| - 1)
    ensures Trailing(u + s) == Trailing(s) && RStrip(u + s) == u + RStrip(s)
  {
    forall i | 0 <= i < |s|
      ensures SpaceAt(u + s, |u| + i) == SpaceAt(s, i)
    {}
    forall i | |u + s| - Trailing(s) <= i < |u + s|
      ensures SpaceAt(u + s, i)
    {
      assert SpaceAt(s, i - |u|);
    }
    assert SpaceAt(u + s, |u| - 1) ==> |s| < |s| || SpaceAt(u, |u| - 1);
    TrailingIs(u + s, Trailing(s));
  }

  /** One chunk, in terms of the text so far and the held whitespace. */
  lemma FeedFacts(before: string, text: string)
    ensures
      var combined := Tail(before) + text;
      var kept := if Strip(before) == "" then LStrip(combined) else combined;
      Leading(before + text) == Leading(before) + |combined| - |kept| &&
      Trailing(LStrip(before + text)) == Trailing(kept) &&
      Strip(before + text) == Strip(before) + RStrip(kept) &&
      Tail(before + text) == Excess(kept)
  {
    hide Leading, Trailing;
    var combined := Tail(before) + text;
    var kept := if Strip(before) == "" then LStrip(combined) else combined;
    StripEmpty(before);
    if Strip(before) == "" {
      LeadingGrows(before, text);
      assert combined == text;
      assert LStrip(before + text) == Strip(before) + kept;
    } else {
      LeadingSettles(before, text);
      assert LStrip(before) + text == Strip(before) + kept;
    }
    TrailingExtends(Strip(before), kept);
  }

  /** Python's `s.lstrip()` and `s.rstrip()`. */
  method LStripped(s: string) returns (t: string)
    ensures t == LStrip(s) && |t| == |s| - Leading(s)
  {
    t := s[Leading(s)..];
  }

  method RStripped(s: string) returns (t: string)
    ensures t == RStrip(s) && |t| == |s| - Trailing(s) && s[|t|..] == Excess(s)
  {
    t := s[..|s| - Trailing(s)];
  }

  class StreamingTextField {
    const maximumAmbiguousWhitespace: nat
    var pendingTrailingWhitespace: string
    var discardedLeadingWhitespace: nat
    var started: bool
    ghost var taken: string
    ghost var emitted: string

    /** What has been emitted is always the stripped form of all text taken so far. */
    ghost predicate Valid()
      reads this
    {
      WithinBound(maximumAmbiguousWhitespace, taken) &&
      discardedLeadingWhitespace == Leading(taken) &&
      emitted == Strip(taken) &&
      (started <==> emitted != "") &&
      pendingTrailingWhitespace == Tail(taken)
    }

    constructor (maximum: nat)
      ensures Valid() && maximumAmbiguousWhitespace == maximum && taken == "" && emitted == ""
    {
      hide Leading, Trailing;
      maximumAmbiguousWhitespace := maximum;
      pendingTrailingWhitespace, discardedLeadingWhitespace, started := "", 0, false;
      taken, emitted := "", "";
    }

    /** `ok` is false exactly where the source raises: when the text so far leaves the bound. */
    method Feed(text: string) returns (ok: bool, out: string)
      requires Valid()
      modifies this
      ensures ok <==> WithinBound(maximumAmbiguousWhitespace, old(taken) + text)
      ensures ok ==> Valid() && taken == old(taken) + text && emitted == old(emitted) + out
    {
      hide Leading, Trailing, LStrip, RStrip, Strip, Tail, Excess;
      FeedFacts(taken, text);
      if text == "" {
        assert taken + text == taken && emitted + text == emitted;
        return true, "";
      }
      var combined := pendingTrailingWhitespace + text;
      pendingTrailingWhitespace := "";
      taken := taken + text;
      if !started {
        var stripped := LStripped(combined);
        discardedLeadingWhitespace := discardedLeadingWhitespace + (|combined| - |stripped|);
        if discardedLeadingWhitespace > maximumAmbiguousWhitespace {
          return false, "";
        }
        combined := stripped;
      }
      var stable := RStripped(combined);
      pendingTrailingWhitespace := combined[|stable|..];
      if |pendingTrailingWhitespace| > maximumAmbiguousWhitespace {
        return false, "";
      }
      emitted := emitted + stable;
      if stable == "" {
        assert emitted == old(emitted);
        return true, "";
      }
      started := true;
      return true, stable;
    }

    method Finish()
      modifies this`pendingTrailingWhitespace
      ensures pendingTrailingWhitespace == ""
    {
      pendingTrailingWhitespace := "";
    }
  }
}
