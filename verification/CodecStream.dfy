/**
 The artifact codec's stream parser: reasoning up to the thinking-end marker, then content up to the
 first tool-call or end-of-sequence marker.  Each region is filtered like stop-string text.
 */
module CodecStreams {
  import opened TextSearch
  import opened StopFiltering

  datatype Field = Reasoning | Content

  datatype Event = Event(field: Field, text: string)

  /** All text that a list of events carries for one field. */
  function TextOf(events: seq<Event>, field: Field): string {
    if events == [] then ""
    else
      var last := events[|events| - 1];
      TextOf(events[..|events| - 1], field) + if last.field == field then last.text else ""
  }

  lemma NoText()
    ensures TextOf([], Reasoning) == TextOf([], Content) == ""
  {}

  /** The codec's optional content markers, empty ones dropped. */
  function Markers(toolStart: string, eos: string): seq<string> {
    (if toolStart == "" then [] else [toolStart]) + (if eos == "" then [] else [eos])
  }

  /** The regions of a whole response, read in one pass. */
  function WholeReasoning(thinking: bool, thinkingEnd: string, raw: string): string {
    if thinking then Truncate([thinkingEnd], raw) else ""
  }

  function WholeContent(thinking: bool, thinkingEnd: string, markers: seq<string>, raw: string): string {
    if !thinking then Truncate(markers, raw)
    else if First([thinkingEnd], raw) < 0 then ""
    else Truncate(markers, AfterMarker(thinkingEnd, raw))
  }

  /** The text behind the first marker. */
  function AfterMarker(marker: string, raw: string): string
    requires First([marker], raw) >= 0
  {
    MarkerFits(marker, raw);
    raw[First([marker], raw) + |marker|..]
  }

  lemma MarkerFits(marker: string, raw: string)
    requires First([marker], raw) >= 0
    ensures At(raw, First([marker], raw), marker)
  {
    assert AnyAt([marker], raw, First([marker], raw));
  }

  lemma SingleIsPrefixSafe(marker: string)
    ensures PrefixSafe([marker])
  {
    forall k, n | 0 <= k < 1 && 0 <= n < |[marker][k]|
      ensures !Contains([marker], [marker][k][..n])
    {}
  }

  /** Later text only extends the text behind the first marker. */
  lemma AfterMarkerExtends(marker: string, raw: string, text: string)
    requires First([marker], raw) >= 0
    ensures First([marker], raw + text) == First([marker], raw)
    ensures AfterMarker(marker, raw + text) == AfterMarker(marker, raw) + text
    ensures (raw + text)[..First([marker], raw)] == raw[..First([marker], raw)]
  {
    hide First;
    SingleIsPrefixSafe(marker);
    FirstIsSettled([marker], raw, text);
    MarkerFits(marker, raw);
  }

  /** One more chunk that brings the marker: where it lies in the whole text. */
  lemma MarkerArrives(marker: string, chunks: seq<string>, unread: string)
    requires !Filter([marker], chunks).stopped
    requires First([marker], Filter([marker], chunks).pending + unread) >= 0
    ensures
      var t, raw := Filter([marker], chunks), Join(chunks) + unread;
      var combined := t.pending + unread;
      var hit := First([marker], combined);
      At(combined, hit, marker) && First([marker], raw) == |t.emitted| + hit &&
      raw[..|t.emitted| + hit] == t.emitted + combined[..hit] &&
      AfterMarker(marker, raw) == combined[hit + |marker|..]
  {
    hide First, Held;
    var t, raw := Filter([marker], chunks), Join(chunks) + unread;
    FilterInvariant([marker], chunks);
    TakenStartsClean([marker], t, unread);
    FirstShift([marker], t.emitted, t.pending + unread);
    MarkerFits(marker, t.pending + unread);
    MarkerFits(marker, raw);
  }

  lemma FilterSnoc(ws: seq<string>, chunks: seq<string>, text: string)
    ensures Filter(ws, chunks + [text]) == Step(ws, Filter(ws, chunks), text)
    ensures Join(chunks + [text]) == Join(chunks) + text
  {
    assert (chunks + [text])[..|chunks|] == chunks;
  }

  lemma Assoc(a: string, b: string, c: string)
    ensures (a + b) + c == a + (b + c)
  {}

  lemma FilterEmpty(ws: seq<string>)
    ensures Filter(ws, []) == Trace("", "", "", false) && Join([]) == ""
  {}

  /** A response that ends before the thinking-end marker is all reasoning. */
  lemma EndsInReasoning(marker: string, markers: seq<string>, chunks: seq<string>)
    requires !Filter([marker], chunks).stopped
    ensures WholeReasoning(true, marker, Join(chunks)) == Output([marker], chunks)
    ensures WholeContent(true, marker, markers, Join(chunks)) == ""
  {
    SingleIsPrefixSafe(marker);
    AnyChunkingTruncates([marker], chunks);
    FilterInvariant([marker], chunks);
  }

  // The regions as functions of the chunks

  /** What each region has been fed; whatever follows the marker in its chunk is the first chunk of the content. */
  datatype Regions = Regions(inContent: bool, reasoning: seq<string>, content: seq<string>)

  function Received(marker: string, r: Regions, delta: string): Regions {
    if delta == "" then r
    else if r.inContent then Regions(true, r.reasoning, r.content + [delta])
    else
      var combined := Filter([marker], r.reasoning).pending + delta;
      var hit := First([marker], combined);
      if hit < 0 || hit + |marker| > |combined| then Regions(false, r.reasoning + [delta], r.content)
      else Regions(true, r.reasoning + [delta], Rest(combined[hit + |marker|..]))
  }

  lemma ReceivedContent(marker: string, r: Regions, delta: string)
    requires r.inContent && delta != ""
    ensures Received(marker, r, delta) == Regions(true, r.reasoning, r.content + [delta])
  {}

  lemma ReceivedReasoning(marker: string, r: Regions, delta: string, combined: string)
    requires !r.inContent && delta != "" && combined == Filter([marker], r.reasoning).pending + delta
    ensures
      var hit := First([marker], combined);
      Received(marker, r, delta) ==
      if 0 <= hit <= |combined| - |marker| then Regions(true, r.reasoning + [delta], Rest(combined[hit + |marker|..]))
      else Regions(false, r.reasoning + [delta], r.content)
  {
    hide First, Held, Filter;
  }

  lemma ReceivedNothing(marker: string, r: Regions)
    ensures Received(marker, r, "") == r
  {}

  function Rest(text: string): seq<string> { if text == "" then [] else [text] }

  function AllReceived(thinking: bool, marker: string, chunks: seq<string>): Regions {
    if chunks == [] then Regions(!thinking, [], [])
    else Received(marker, AllReceived(thinking, marker, chunks[..|chunks| - 1]), chunks[|chunks| - 1])
  }

  /** Reasoning and content once the stream is closed. */
  function RegionTexts(thinking: bool, marker: string, markers: seq<string>, r: Regions): (string, string) {
    (if thinking then Output([marker], r.reasoning) else "", Output(markers, r.content))
  }

  function CodecTexts(thinking: bool, marker: string, markers: seq<string>, chunks: seq<string>): (string, string) {
    RegionTexts(thinking, marker, markers, AllReceived(thinking, marker, chunks))
  }

  /** The text taken so far is split at the first marker. */
  predicate SplitAt(thinking: bool, marker: string, r: Regions, raw: string) {
    if !thinking then r.inContent && Join(r.content) == raw
    else if !r.inContent then
      r.content == [] && Join(r.reasoning) == raw && !Filter([marker], r.reasoning).stopped
    else
      First([marker], raw) >= 0 && AfterMarker(marker, raw) == Join(r.content) &&
      Filter([marker], r.reasoning).stopped && Filter([marker], r.reasoning).emitted == raw[..First([marker], raw)]
  }

  lemma JoinOne(text: string)
    ensures Join(Rest(text)) == text && Join([]) == ""
  {
    if text != "" {
      FilterSnoc([], [], text);
      assert [] + [text] == [text];
    }
  }

  lemma ReceivedSplits(thinking: bool, marker: string, r: Regions, raw: string, delta: string)
    requires SplitAt(thinking, marker, r, raw)
    ensures SplitAt(thinking, marker, Received(marker, r, delta), raw + delta)
  {
    hide First, Held, Filter, Join, AfterMarker;
    FilterSnoc([marker], r.reasoning, delta);
    FilterSnoc([marker], r.content, delta);
    if delta == "" {
      assert raw + delta == raw;
    } else if r.inContent {
      if thinking {
        AfterMarkerExtends(marker, raw, delta);
      }
    } else {
      var combined := Filter([marker], r.reasoning).pending + delta;
      if First([marker], combined) >= 0 {
        MarkerFits(marker, combined);
        MarkerArrives(marker, r.reasoning, delta);
        JoinOne(combined[First([marker], combined) + |marker|..]);
      }
    }
  }

  lemma {:induction false} RegionsSplit(thinking: bool, marker: string, chunks: seq<string>)
    ensures SplitAt(thinking, marker, AllReceived(thinking, marker, chunks), Join(chunks))
  {
    hide SplitAt, Received;
    if chunks == [] {
      NothingSplits(thinking, marker);
    } else {
      var before, last := chunks[..|chunks| - 1], chunks[|chunks| - 1];
      RegionsSplit(thinking, marker, before);
      ReceivedSplits(thinking, marker, AllReceived(thinking, marker, before), Join(before), last);
      FilterSnoc([marker], before, last);
      assert before + [last] == chunks;
    }
  }

  lemma NothingSplits(thinking: bool, marker: string)
    ensures SplitAt(thinking, marker, Regions(!thinking, [], []), Join([]))
  {
    FilterEmpty([marker]);
  }

  /** With prefix-safe content markers every chunking gives the split of the whole text. */
  lemma AnyChunkingSplits(thinking: bool, marker: string, markers: seq<string>, chunks: seq<string>)
    requires PrefixSafe(markers)
    ensures CodecTexts(thinking, marker, markers, chunks) ==
            (WholeReasoning(thinking, marker, Join(chunks)), WholeContent(thinking, marker, markers, Join(chunks)))
  {
    hide First, Held, Filter, Join, AfterMarker, PrefixSafe;
    var r := AllReceived(thinking, marker, chunks);
    RegionsSplit(thinking, marker, chunks);
    AnyChunkingTruncates(markers, r.content);
    FilterEmpty(markers);
    if thinking && !r.inContent {
      EndsInReasoning(marker, markers, r.reasoning);
    }
  }

  /** Text right behind the marker is content. */
  lemma ContentFollows(thinking: bool, marker: string, chunks: seq<string>, text: string)
    requires text != "" && (chunks == [] ==> !thinking) && (chunks != [] ==> thinking && chunks == [marker])
    ensures
      var r := AllReceived(thinking, marker, chunks + [text]);
      r.inContent && r.content == [text]
  {
    hide Held, First, Filter;
    FilterEmpty([marker]);
    assert (chunks + [text])[..|chunks|] == chunks && [] + [text] == [text];
    if thinking {
      assert chunks[..0] == [] && "" + marker == marker && "" + text == text;
      StartsWith(marker, if marker == "" then text else marker);
      assert marker[|marker|..] == "" && text[0..] == text;
      assert AllReceived(thinking, marker, chunks) == Received(marker, Regions(false, [], []), marker);
    } else {
      assert AllReceived(thinking, marker, []) == Regions(true, [], []);
    }
  }

  lemma StartsWith(marker: string, text: string)
    requires marker <= text
    ensures First([marker], text) == 0
  {
    assert At(text, 0, [marker][0]);
    assert AnyAt([marker], text, 0);
  }

  /** Reasoning and content depend on the text alone, not on its chunks, if and only if the content markers are prefix-safe. */
  lemma CodecIndependentIff(thinking: bool, marker: string, markers: seq<string>)
    ensures (forall a, b :: Join(a) == Join(b) ==>
               CodecTexts(thinking, marker, markers, a) == CodecTexts(thinking, marker, markers, b)) <==>
            PrefixSafe(markers)
  {
    hide First, Held, Filter, CodecTexts, Join;
    if PrefixSafe(markers) {
      forall a, b | Join(a) == Join(b)
        ensures CodecTexts(thinking, marker, markers, a) == CodecTexts(thinking, marker, markers, b)
      {
        AnyChunkingSplits(thinking, marker, markers, a);
        AnyChunkingSplits(thinking, marker, markers, b);
      }
    } else {
      var k, n :| 0 <= k < |markers| && 0 <= n < |markers[k]| && Contains(markers, markers[k][..n]) &&
        !AnyAt(markers, markers[k][..n], 0);
      var a, b := ContentSplitsInTwo(thinking, marker, markers, k, n);
    }
  }

  lemma ContentSplitsInTwo(thinking: bool, marker: string, markers: seq<string>, k: nat, n: nat)
    returns (a: seq<string>, b: seq<string>)
    requires k < |markers| && n < |markers[k]|
    requires Contains(markers, markers[k][..n]) && !AnyAt(markers, markers[k][..n], 0)
    ensures Join(a) == Join(b) && CodecTexts(thinking, marker, markers, a) != CodecTexts(thinking, marker, markers, b)
  {
    hide First, Held, Filter, Join, Received, AllReceived, Contains, AnyAt;
    var w, before := markers[k], if thinking then [marker] else [];
    var head, tail := w[..n], w[n..];
    a, b := before + [w], before + [head] + [tail];
    NotEmptyPrefix(markers, w, n);
    SplitInTwo(markers, k, n);
    ContentFollows(thinking, marker, before, w);
    ContentFollows(thinking, marker, before, head);
    OneMoreReceived(thinking, marker, before + [head], tail);
    ReceivedContent(marker, AllReceived(thinking, marker, before + [head]), tail);
    assert [head] + [tail] == [head, tail];
    SameText(before, w, head, tail);
  }

  lemma OneMoreReceived(thinking: bool, marker: string, chunks: seq<string>, text: string)
    ensures AllReceived(thinking, marker, chunks + [text]) == Received(marker, AllReceived(thinking, marker, chunks), text)
  {
    hide Received;
    assert (chunks + [text])[..|chunks|] == chunks;
  }

  lemma SameText(before: seq<string>, w: string, head: string, tail: string)
    requires w == head + tail
    ensures Join(before + [w]) == Join(before + [head] + [tail])
  {
    hide Join;
    FilterSnoc([], before, w);
    FilterSnoc([], before, head);
    FilterSnoc([], before + [head], tail);
    Assoc(Join(before), head, tail);
  }

  lemma NotEmptyPrefix(markers: seq<string>, w: string, n: nat)
    requires n < |w| && Contains(markers, w[..n]) && !AnyAt(markers, w[..n], 0)
    ensures w[..n] != "" && w[n..] != ""
  {}

  class ArtifactCodecStreamParser {
    const thinkingEnd: string
    const markers: seq<string>
    const thinking: bool
    var field: Field
    var pending: string
    var finished: bool
    ghost var raw: string                    // all text fed
    ghost var reasoningChunks: seq<string>   // what the reasoning region was fed
    ghost var contentChunks: seq<string>     // what the content region was fed
    ghost var reasoning: string              // emitted so far, by field
    ghost var content: string

    /** The text taken so far splits at the first thinking-end marker; `unread` is not yet filtered. */
    ghost predicate Splits(unread: string)
      reads this
    {
      match field
      case Reasoning =>
        thinking && contentChunks == [] && content == "" && raw == Join(reasoningChunks) + unread &&
        reasoning == Filter([thinkingEnd], reasoningChunks).emitted
      case Content =>
        content == Filter(markers, contentChunks).emitted &&
        (thinking ==> Filter([thinkingEnd], reasoningChunks).stopped &&
                      reasoning == Filter([thinkingEnd], reasoningChunks).emitted) &&
        if thinking then
          First([thinkingEnd], raw) >= 0 && reasoning == raw[..First([thinkingEnd], raw)] &&
          AfterMarker(thinkingEnd, raw) == Join(contentChunks) + unread
        else reasoning == "" && raw == Join(contentChunks) + unread
    }

    /** What the regions have been fed. */
    ghost function Seen(): Regions
      reads this
    {
      Regions(field == Content, reasoningChunks, contentChunks)
    }

    ghost function Region(): Trace
      reads this
    {
      if field == Reasoning then Filter([thinkingEnd], reasoningChunks) else Filter(markers, contentChunks)
    }

    /** `unread` has been appended to the pending text but not yet been looked at. */
    ghost predicate InFlight(unread: string)
      reads this
    {
      Splits(unread) && !finished && !Region().stopped && pending == Region().pending + unread
    }

    ghost predicate Valid()
      reads this
    {
      InFlight("") || (Splits("") && finished && field == Content && Region().stopped && pending == "")
    }

    constructor (thinking: bool, thinkingEnd: string, toolStart: string, eos: string)
      ensures Valid() && raw == reasoning == content == "" && !finished
      ensures this.thinking == thinking && this.thinkingEnd == thinkingEnd && markers == Markers(toolStart, eos)
      ensures Seen() == AllReceived(thinking, thinkingEnd, [])
    {
      hide First, Held, Filter, Join, Markers;
      FilterEmpty([thinkingEnd]);
      FilterEmpty(Markers(toolStart, eos));
      this.thinking, this.thinkingEnd, this.markers := thinking, thinkingEnd, Markers(toolStart, eos);
      field := if thinking then Reasoning else Content;
      pending, finished := "", false;
      raw, reasoning, content, reasoningChunks, contentChunks := "", "", "", [], [];
    }

    method Feed(delta: string) returns (events: seq<Event>)
      requires Valid()
      modifies this
      ensures Valid() && raw == old(raw) + delta && Seen() == Received(thinkingEnd, old(Seen()), delta)
      ensures reasoning == old(reasoning) + TextOf(events, Reasoning)
      ensures content == old(content) + TextOf(events, Content)
    {
      hide First, Held, Filter, Join, AfterMarker, TextOf, Received;
      events := [];
      NoText();
      ghost var seen := Seen();
      ReceivedNothing(thinkingEnd, seen);
      if delta == "" {
        return;
      }
      Receive(delta);
      if finished {
        ReceivedContent(thinkingEnd, seen, delta);
        return;
      }
      pending := pending + delta;
      events := Scan(delta);
    }

    /** Filters what is pending, region by region. */
    method Scan(ghost delta: string) returns (events: seq<Event>)
      requires InFlight(delta) && delta != ""
      modifies this`field, this`pending, this`finished, this`reasoning, this`content, this`reasoningChunks, this`contentChunks
      ensures Valid() && raw == old(raw) && Seen() == Received(thinkingEnd, old(Seen()), delta)
      ensures reasoning == old(reasoning) + TextOf(events, Reasoning)
      ensures content == old(content) + TextOf(events, Content)
    {
      hide First, Held, Filter, Join, AfterMarker, TextOf, Emit, Received;
      events := [];
      NoText();
      ghost var seen, received, unread := Seen(), Received(thinkingEnd, Seen(), delta), delta;
      if field == Content {
        ReceivedContent(thinkingEnd, seen, delta);
      } else {
        ReceivedReasoning(thinkingEnd, seen, delta, pending);
      }
      while pending != "" && !finished
        invariant InFlight(unread) && (unread == "" ==> pending == "")
        invariant if unread == "" then Seen() == received
                  else if field == Content && !seen.inContent then
                    contentChunks == [] && received == Regions(true, reasoningChunks, [unread])
                  else unread == delta && Seen() == seen && pending == old(pending)
        invariant raw == old(raw)
        invariant reasoning == old(reasoning) + TextOf(events, Reasoning)
        invariant content == old(content) + TextOf(events, Content)
        decreases field == Reasoning, unread != ""
      {
        ghost var before := events;
        if field == Reasoning {
          var more, text;
          more, text, unread := ReadReasoning(unread);
          events := Emit(events, Reasoning, text);
          Assoc(old(reasoning), TextOf(before, Reasoning), text);
          if !more {
            break;
          }
        } else {
          var text := ReadContent(unread);
          events := Emit(events, Content, text);
          Assoc(old(content), TextOf(before, Content), text);
          assert [] + [unread] == [unread];
          break;
        }
      }
    }

    /** Appends one event unless its text is empty. */
    static function Emit(events: seq<Event>, field: Field, text: string): (r: seq<Event>)
      ensures TextOf(r, field) == TextOf(events, field) + text
      ensures forall f :: f != field ==> TextOf(r, f) == TextOf(events, f)
    {
      if text == "" then events
      else
        assert (events + [Event(field, text)])[..|events|] == events;
        events + [Event(field, text)]
    }

    /** Bookkeeping: new text is still unread, or falls behind the finishing marker. */
    ghost method Receive(delta: string)
      requires Valid()
      modifies this`raw, this`contentChunks
      ensures raw == old(raw) + delta && reasoningChunks == old(reasoningChunks)
      ensures contentChunks == if finished then old(contentChunks) + [delta] else old(contentChunks)
      ensures if finished then Valid() else Splits(delta) && Region() == old(Region())
    {
      hide First, Held, Filter, Join, AfterMarker;
      if field == Content && thinking {
        AfterMarkerExtends(thinkingEnd, raw, delta);
      }
      if finished {
        FilterSnoc(markers, contentChunks, delta);
        contentChunks := contentChunks + [delta];
      }
      raw := raw + delta;
    }

    method ReadReasoning(ghost unread: string) returns (more: bool, text: string, ghost unread': string)
      requires field == Reasoning && InFlight(unread)
      modifies this`field, this`pending, this`reasoning, this`reasoningChunks
      ensures if more then field == Content && InFlight(unread') else Valid()
      ensures raw == old(raw) && content == old(content) && reasoning == old(reasoning) + text
      ensures reasoningChunks == old(reasoningChunks) + [unread]
      ensures
        var hit := First([thinkingEnd], old(pending));
        if more then unread' == pending && 0 <= hit <= |old(pending)| - |thinkingEnd| && unread' == old(pending)[hit + |thinkingEnd|..]
        else unread' == "" && field == Reasoning && hit < 0
    {
      hide First, Held, Filter, Join, AfterMarker;
      FilterSnoc([thinkingEnd], reasoningChunks, unread);
      FilterEmpty(markers);
      var index := Find(pending, thinkingEnd);
      if index >= 0 {
        MarkerArrives(thinkingEnd, reasoningChunks, unread);
        text := pending[..index];
        pending := pending[index + |thinkingEnd|..];
        field := Content;
        more, unread' := true, pending;
      } else {
        var held := LongestHeld([thinkingEnd], pending);
        text, pending := pending[..|pending| - held], pending[|pending| - held..];
        more, unread' := false, "";
      }
      reasoning, reasoningChunks := reasoning + text, reasoningChunks + [unread];
    }

    method ReadContent(ghost unread: string) returns (text: string)
      requires field == Content && InFlight(unread)
      modifies this`pending, this`finished, this`content, this`contentChunks
      ensures Valid() && raw == old(raw) && reasoning == old(reasoning) && content == old(content) + text
      ensures contentChunks == old(contentChunks) + [unread]
    {
      hide First, Held, Filter, Join, AfterMarker;
      FilterSnoc(markers, contentChunks, unread);
      var index := EarliestMatch(markers, pending);
      if index >= 0 {
        text, pending, finished := pending[..index], "", true;
      } else {
        var held := LongestHeld(markers, pending);
        text, pending := pending[..|pending| - held], pending[|pending| - held..];
      }
      content, contentChunks := content + text, contentChunks + [unread];
    }

    /** Closing the stream: the regions are those of the chunks, and with prefix-safe markers those of the whole text. */
    method Finalize() returns (events: seq<Event>)
      requires Valid()
      modifies this`pending, this`finished
      ensures finished && pending == ""
      ensures (reasoning + TextOf(events, Reasoning), content + TextOf(events, Content)) ==
              RegionTexts(thinking, thinkingEnd, markers, Seen())
      ensures PrefixSafe(markers) ==>
        reasoning + TextOf(events, Reasoning) == WholeReasoning(thinking, thinkingEnd, raw) &&
        content + TextOf(events, Content) == WholeContent(thinking, thinkingEnd, markers, raw)
    {
      hide First, Held, Join, Filter, AfterMarker, TextOf, Emit, PrefixSafe;
      NoText();
      FilterEmpty(markers);
      assert Region().pending + "" == Region().pending && reasoning + "" == reasoning && content + "" == content;
      assert "" + pending == pending;
      events := if !finished && pending != "" then Emit([], field, pending) else [];
      if field == Reasoning {
        EndsInReasoning(thinkingEnd, markers, reasoningChunks);
        assert raw == Join(reasoningChunks);
      } else if PrefixSafe(markers) {
        AnyChunkingTruncates(markers, contentChunks);
        assert Join(contentChunks) + "" == Join(contentChunks);
      }
      pending, finished := "", true;
    }
  }
}
