/** The decoder of the chat stream (`parseSseEvents`): a simplified subset of
    the Server-Sent Events format of the WHATWG HTML Living Standard, section
    9.2. Frames are split only on a blank line, a data line must start with
    exactly "data: ", each data line is parsed on its own, and `event:`,
    `id:` and `retry:` lines are not recognised. */
module Sse {
  import opened Text

  const DataPrefix: string := "data: "
  const DoneMarker: string := "[DONE]"

  /** The fields of a parsed JSON object payload that the decoder looks at;
      `None` means the key is absent. */
  datatype Payload = Payload(error: Option<string>, token: Option<string>, messageId: Option<int>)

  /** `JSON.parse` restricted to objects: `None` when it throws. */
  type JsonParse = string -> Option<Payload>

  /** One callback invocation: `onToken`, `onDone` or `onError`. */
  datatype Event = Token(text: string) | Done | Failure(message: string)

  /** The callbacks one decoding made, in order, and whether it returned early. */
  datatype Decoded = Decoded(events: seq<Event>, halted: bool)

  /** An `onError` callback is always the last one, and the decoding returned
      right after it. */
  ghost predicate ErrorIsLast(d: Decoded)
  {
    forall k :: 0 <= k < |d.events| && d.events[k].Failure? ==> k == |d.events| - 1 && d.halted
  }

  /** The payload of a data line: the line minus its 6-character prefix. */
  function PayloadOf(line: string): (payload: string)
    requires StartsWith(line, DataPrefix)
    ensures line == DataPrefix + payload
  {
    line[|DataPrefix|..]
  }

  /** The line makes no callback and does not stop the decoding. */
  predicate Silent(parse: JsonParse, line: string)
  {
    !StartsWith(line, DataPrefix) ||
    (PayloadOf(line) != DoneMarker && parse(PayloadOf(line)).None?)
  }

  /** One iteration of the inner loop of `parseSseEvents`. */
  function DecodeLine(parse: JsonParse, line: string): (d: Decoded)
    ensures Silent(parse, line) ==> d == Decoded([], false)
    ensures ErrorIsLast(d)
  {
    if !StartsWith(line, DataPrefix) then Decoded([], false)
    else
      var payload := PayloadOf(line);
      if payload == DoneMarker then Decoded([], true)
      else match parse(payload)
        case None => Decoded([], false)
        case Some(p) =>
          if p.error.Some? then Decoded([Failure(p.error.value)], true)
          else
            Decoded((if p.token.Some? then [Token(p.token.value)] else []) +
                    (if p.messageId.Some? then [Done] else []), false)
  }

  /** The inner loop over the lines of one piece, up to an early return. */
  function DecodeLines(parse: JsonParse, lines: seq<string>): (d: Decoded)
    ensures ErrorIsLast(d)
    ensures lines == [] ==> d == Decoded([], false)
  {
    if lines == [] then Decoded([], false)
    else
      var first := DecodeLine(parse, lines[0]);
      if first.halted then first
      else
        var rest := DecodeLines(parse, lines[1..]);
        Decoded(first.events + rest.events, rest.halted)
  }

  /** The outer loop over the pieces of the text; an early return leaves both loops. */
  function DecodeParts(parse: JsonParse, parts: seq<string>): (d: Decoded)
    ensures ErrorIsLast(d)
  {
    if parts == [] then Decoded([], false)
    else
      var first := DecodeLines(parse, Split(parts[0], Newline));
      if first.halted then first
      else
        var rest := DecodeParts(parse, parts[1..]);
        Decoded(first.events + rest.events, rest.halted)
  }

  /** `parseSseEvents(text, callbacks)`: the callbacks it makes, in order.
      At most one `onError` is made, and it is the last callback. */
  function ParseSseEvents(parse: JsonParse, text: string): (d: Decoded)
    ensures ErrorIsLast(d)
  {
    DecodeParts(parse, Split(text, Sep))
  }

  /** Decoding two runs of lines: the second run is decoded only when the
      first did not return early. */
  lemma {:induction false} DecodeLinesAppend(parse: JsonParse, a: seq<string>, b: seq<string>)
    ensures DecodeLines(parse, a + b) ==
      if DecodeLines(parse, a).halted then DecodeLines(parse, a)
      else Decoded(DecodeLines(parse, a).events + DecodeLines(parse, b).events, DecodeLines(parse, b).halted)
    decreases |a|
  {
    if a != [] {
      assert (a + b)[0] == a[0];
      assert (a + b)[1..] == a[1..] + b;
      DecodeLinesAppend(parse, a[1..], b);
    } else {
      assert a + b == b;
    }
  }

  /** A silent line can be dropped without changing the decoding. */
  lemma SilentLineDropped(parse: JsonParse, a: seq<string>, line: string, b: seq<string>)
    requires Silent(parse, line)
    ensures DecodeLines(parse, a + [line] + b) == DecodeLines(parse, a + b)
  {
    assert a + [line] + b == a + ([line] + b);
    assert ([line] + b)[1..] == b;
    assert DecodeLines(parse, [line] + b) == DecodeLines(parse, b);
    DecodeLinesAppend(parse, a, [line] + b);
    DecodeLinesAppend(parse, a, b);
  }

  /** A line without the exact prefix "data: " is ignored. */
  lemma NonDataLineIgnored(parse: JsonParse, a: seq<string>, line: string, b: seq<string>)
    requires !StartsWith(line, DataPrefix)
    ensures DecodeLines(parse, a + [line] + b) == DecodeLines(parse, a + b)
  {
    SilentLineDropped(parse, a, line, b);
  }

  /** A data line whose JSON does not parse is skipped, and the lines after it
      are still decoded. */
  lemma UnparsableLineSkipped(parse: JsonParse, a: seq<string>, line: string, b: seq<string>)
    requires StartsWith(line, DataPrefix)
    requires PayloadOf(line) != DoneMarker && parse(PayloadOf(line)) == None
    ensures DecodeLines(parse, a + [line] + b) == DecodeLines(parse, a + b)
  {
    SilentLineDropped(parse, a, line, b);
  }

  /** "data: [DONE]" ends the decoding: nothing after it makes a callback. */
  lemma DoneLineStops(parse: JsonParse, a: seq<string>, b: seq<string>)
    ensures DecodeLines(parse, a + [DataPrefix + DoneMarker] + b) ==
      Decoded(DecodeLines(parse, a).events, true)
  {
    var line := DataPrefix + DoneMarker;
    assert StartsWith(line, DataPrefix) && PayloadOf(line) == DoneMarker;
    DecodeLinesAppend(parse, a, [line] + b);
    assert a + [line] + b == a + ([line] + b);
  }

  /** A payload with an `error` key makes one `onError` with its message, and
      the lines after it make no callback. */
  lemma ErrorLineStops(parse: JsonParse, a: seq<string>, line: string, b: seq<string>, p: Payload)
    requires StartsWith(line, DataPrefix)
    requires PayloadOf(line) != DoneMarker && parse(PayloadOf(line)) == Some(p)
    requires p.error.Some?
    requires !DecodeLines(parse, a).halted
    ensures DecodeLines(parse, a + [line] + b) ==
      Decoded(DecodeLines(parse, a).events + [Failure(p.error.value)], true)
  {
    DecodeLinesAppend(parse, a, [line] + b);
    assert a + [line] + b == a + ([line] + b);
  }

  /** A payload without `error` makes `onToken` (if it has `token`) and then
      `onDone` (if it has `messageId`), and decoding goes on with the next line. */
  lemma TokenThenDone(parse: JsonParse, a: seq<string>, line: string, b: seq<string>, p: Payload)
    requires StartsWith(line, DataPrefix)
    requires PayloadOf(line) != DoneMarker && parse(PayloadOf(line)) == Some(p)
    requires p.error.None?
    requires !DecodeLines(parse, a).halted
    ensures DecodeLines(parse, a + [line] + b) ==
      Decoded(DecodeLines(parse, a).events +
              (if p.token.Some? then [Token(p.token.value)] else []) +
              (if p.messageId.Some? then [Done] else []) +
              DecodeLines(parse, b).events,
              DecodeLines(parse, b).halted)
  {
    var first := DecodeLine(parse, line);
    var tail := DecodeLines(parse, b);
    var fired := (if p.token.Some? then [Token(p.token.value)] else []) +
                 (if p.messageId.Some? then [Done] else []);
    assert first == Decoded(fired, false);
    assert ([line] + b)[0] == line && ([line] + b)[1..] == b;
    var mid := DecodeLines(parse, [line] + b);
    assert mid == Decoded(fired + tail.events, tail.halted);
    DecodeLinesAppend(parse, a, [line] + b);
    assert a + [line] + b == a + ([line] + b);
    var head := DecodeLines(parse, a);
    assert DecodeLines(parse, a + [line] + b) == Decoded(head.events + (fired + tail.events), tail.halted);
    var tp := if p.token.Some? then [Token(p.token.value)] else [];
    var dp := if p.messageId.Some? then [Done] else [];
    SeqAssoc(head.events, tp, dp, tail.events);
  }

  lemma SeqAssoc<T>(h: seq<T>, x: seq<T>, y: seq<T>, t: seq<T>)
    ensures h + ((x + y) + t) == h + x + y + t
  {
  }

  /** Decoding two runs of pieces: once a piece returns early, no later piece
      of the same text is decoded. */
  lemma {:induction false} DecodePartsAppend(parse: JsonParse, a: seq<string>, b: seq<string>)
    ensures DecodeParts(parse, a + b) ==
      if DecodeParts(parse, a).halted then DecodeParts(parse, a)
      else Decoded(DecodeParts(parse, a).events + DecodeParts(parse, b).events, DecodeParts(parse, b).halted)
    decreases |a|
  {
    if a != [] {
      assert (a + b)[0] == a[0];
      assert (a + b)[1..] == a[1..] + b;
      DecodePartsAppend(parse, a[1..], b);
    } else {
      assert a + b == b;
    }
  }

  lemma EmptyPieceSilent(parse: JsonParse)
    ensures DecodeParts(parse, [""]) == Decoded([], false)
  {
    assert IndexOf("", Newline, 0) == None;
    assert Split("", Newline) == [""];
    assert !StartsWith("", DataPrefix);
    assert DecodeLines(parse, [""]) == Decoded([], false);
    assert [""][1..] == [];
  }

  /** A complete frame, re-terminated with the blank line, decodes exactly as
      its own lines do: the empty piece after the separator makes no callback. */
  lemma CompleteFrameDecodesItsLines(parse: JsonParse, part: string)
    requires IndexOf(part + Sep, Sep, 0) == Some(|part|)
    ensures ParseSseEvents(parse, part + Sep) == DecodeLines(parse, Split(part, Newline))
  {
    SplitTerminated(part, Sep);
    PieceThenEmpty(parse, part);
  }

  /** Every complete part that `processNewData` emits from a text decodes,
      with the blank line re-appended, exactly as its own lines. */
  lemma EmittedPartDecodesItsLines(parse: JsonParse, s: string, k: nat)
    requires k < |Split(s, Sep)| - 1
    ensures ParseSseEvents(parse, Split(s, Sep)[k] + Sep) ==
      DecodeLines(parse, Split(Split(s, Sep)[k], Newline))
  {
    SplitPieceTerminated(s, Sep, k);
    CompleteFrameDecodesItsLines(parse, Split(s, Sep)[k]);
  }

  lemma PieceThenEmpty(parse: JsonParse, part: string)
    ensures DecodeParts(parse, [part, ""]) == DecodeLines(parse, Split(part, Newline))
  {
    EmptyPieceSilent(parse);
    var first := DecodeLines(parse, Split(part, Newline));
    assert [part, ""][0] == part && [part, ""][1..] == [""];
    if !first.halted {
      assert first.events + [] == first.events;
    }
  }
}
