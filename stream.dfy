/** The stream controller of `useStreamMessage`: the frame splitter
    `processNewData` with its carried-over `buffer`, the XHR handlers that
    track the `processed` offset into the growing `responseText`, and the
    hook state `streamingText` / `isStreaming` with the cache invalidations
    that a completed message triggers. */
module Stream {
  import opened Text
  import opened Sse

  /** The React Query keys the stream invalidates: `messagesQueryKey(sessionId)`
      and `sessionsQueryKey`. */
  datatype QueryKey = Messages(sessionId: string) | SessionList

  /** The promise that `streamMessage` awaits. Once it is settled, later calls
      of `resolve` or `reject` do nothing. */
  datatype Settlement = Pending | Resolved | Rejected(message: string)

  /** The message of the error the XHR `onerror` handler rejects with. */
  const SendFailedMessage: string := "メッセージの送信に失敗しました"

  /** Calling `resolve` or `reject` with `outcome`: only a pending promise changes. */
  function Settle(s: Settlement, outcome: Settlement): Settlement
  {
    if s == Pending then outcome else s
  }

  /** ---------- What the callbacks do, as functions of the callbacks made ---------- */

  /** The callbacks made for a list of complete parts, each passed to its own
      call of `parseSseEvents` with the blank line re-appended. An early return
      inside one part does not stop the next part. */
  function FrameEvents(parse: JsonParse, parts: seq<string>): seq<Event>
  {
    if parts == [] then []
    else FrameEvents(parse, Init(parts)) + ParseSseEvents(parse, Last(parts) + Sep).events
  }

  /** The text the `onToken` callbacks append, in order. */
  function Tokens(events: seq<Event>): string
  {
    if events == [] then ""
    else Tokens(Init(events)) + (match Last(events) case Token(t) => t case _ => "")
  }

  /** The keys the `onDone` callbacks invalidate, in order: both keys per call. */
  function Invalidations(sessionId: string, events: seq<Event>): seq<QueryKey>
  {
    if events == [] then []
    else Invalidations(sessionId, Init(events)) +
         (if Last(events).Done? then [Messages(sessionId), SessionList] else [])
  }

  /** The promise after the `onError` callbacks: each calls `reject`. */
  function SettleBy(s: Settlement, events: seq<Event>): Settlement
  {
    if events == [] then s
    else
      var before := SettleBy(s, Init(events));
      if Last(events).Failure? then Settle(before, Rejected(Last(events).message)) else before
  }

  /** Reference definition: the message of the first `onError`, scanning from the front. */
  function FirstFailure(events: seq<Event>): Option<string>
  {
    if events == [] then None
    else if events[0].Failure? then Some(events[0].message)
    else FirstFailure(events[1..])
  }

  /** ---------- Properties of those functions ---------- */

  /** Parts are decoded independently: callbacks of later parts follow those
      of earlier ones, whether or not an earlier part returned early. */
  lemma {:induction false} FrameEventsAppend(parse: JsonParse, a: seq<string>, b: seq<string>)
    ensures FrameEvents(parse, a + b) == FrameEvents(parse, a) + FrameEvents(parse, b)
    decreases |b|
  {
    if b == [] {
      assert a + b == a;
    } else {
      InitLastAppend(a, b);
      var x := ParseSseEvents(parse, Last(b) + Sep).events;
      assert FrameEvents(parse, a + b) == FrameEvents(parse, a + Init(b)) + x;
      FrameEventsAppend(parse, a, Init(b));
      Assoc(FrameEvents(parse, a), FrameEvents(parse, Init(b)), x);
    }
  }

  /** One more part adds the callbacks of its own `parseSseEvents` call. */
  lemma FrameEventsSnoc(parse: JsonParse, parts: seq<string>, i: nat)
    requires i < |parts|
    ensures FrameEvents(parse, parts[..i + 1]) ==
      FrameEvents(parse, parts[..i]) + ParseSseEvents(parse, parts[i] + Sep).events
  {
    assert Init(parts[..i + 1]) == parts[..i];
  }

  /** One iteration of the loop over complete parts, on values: appending the
      callbacks of part `i` extends every accumulated result by that part's. */
  lemma EmitStep(parse: JsonParse, sessionId: string, complete: seq<string>, i: nat,
                 done: seq<Event>, evs: seq<Event>,
                 emitted0: seq<string>, events0: seq<Event>, text0: string,
                 keys0: seq<QueryKey>, settlement0: Settlement)
    requires i < |complete|
    requires done == FrameEvents(parse, complete[..i])
    requires evs == ParseSseEvents(parse, complete[i] + Sep).events
    ensures (emitted0 + complete[..i]) + [complete[i]] == emitted0 + complete[..i + 1]
    ensures done + evs == FrameEvents(parse, complete[..i + 1])
    ensures (events0 + done) + evs == events0 + (done + evs)
    ensures (text0 + Tokens(done)) + Tokens(evs) == text0 + Tokens(done + evs)
    ensures (keys0 + Invalidations(sessionId, done)) + Invalidations(sessionId, evs) ==
      keys0 + Invalidations(sessionId, done + evs)
    ensures SettleBy(SettleBy(settlement0, done), evs) == SettleBy(settlement0, done + evs)
  {
    assert complete[..i + 1] == complete[..i] + [complete[i]];
    Assoc(emitted0, complete[..i], [complete[i]]);
    FrameEventsSnoc(parse, complete, i);
    Assoc(events0, done, evs);
    TokensAppend(done, evs);
    Assoc(text0, Tokens(done), Tokens(evs));
    InvalidationsAppend(sessionId, done, evs);
    Assoc(keys0, Invalidations(sessionId, done), Invalidations(sessionId, evs));
    SettleByAppend(settlement0, done, evs);
  }

  /** The streamed text is the in-order concatenation of the tokens. */
  lemma {:induction false} TokensAppend(a: seq<Event>, b: seq<Event>)
    ensures Tokens(a + b) == Tokens(a) + Tokens(b)
    decreases |b|
  {
    if b == [] {
      assert a + b == a;
    } else {
      assert Init(a + b) == a + Init(b);
      assert Last(a + b) == Last(b);
      TokensAppend(a, Init(b));
    }
  }

  lemma {:induction false} InvalidationsAppend(sessionId: string, a: seq<Event>, b: seq<Event>)
    ensures Invalidations(sessionId, a + b) == Invalidations(sessionId, a) + Invalidations(sessionId, b)
    decreases |b|
  {
    if b == [] {
      assert a + b == a;
    } else {
      assert Init(a + b) == a + Init(b);
      assert Last(a + b) == Last(b);
      InvalidationsAppend(sessionId, a, Init(b));
    }
  }

  lemma {:induction false} SettleByAppend(s: Settlement, a: seq<Event>, b: seq<Event>)
    ensures SettleBy(s, a + b) == SettleBy(SettleBy(s, a), b)
    decreases |b|
  {
    if b == [] {
      assert a + b == a;
    } else {
      assert Init(a + b) == a + Init(b);
      assert Last(a + b) == Last(b);
      SettleByAppend(s, a, Init(b));
    }
  }

  /** A settled promise stays as it is, whatever callbacks follow. */
  lemma {:induction false} SettledStays(s: Settlement, events: seq<Event>)
    requires s != Pending
    ensures SettleBy(s, events) == s
    decreases |events|
  {
    if events != [] {
      SettledStays(s, Init(events));
    }
  }

  /** The first `onError` decides the promise: it is rejected with that
      message, and stays pending when no `onError` was made. */
  lemma {:induction false} FirstErrorWins(events: seq<Event>)
    ensures SettleBy(Pending, events) ==
      match FirstFailure(events) case None => Pending case Some(m) => Rejected(m)
    decreases |events|
  {
    if events != [] {
      var head := [events[0]];
      assert events == head + events[1..];
      SettleByAppend(Pending, head, events[1..]);
      assert Init(head) == [];
      if events[0].Failure? {
        SettledStays(Rejected(events[0].message), events[1..]);
      } else {
        FirstErrorWins(events[1..]);
      }
    }
  }

  /** Caches are invalidated exactly when some `onDone` was made. */
  lemma {:induction false} InvalidatesOnlyOnDone(sessionId: string, events: seq<Event>)
    ensures Invalidations(sessionId, events) == [] <==> forall k :: 0 <= k < |events| ==> !events[k].Done?
    decreases |events|
  {
    if events != [] {
      InvalidatesOnlyOnDone(sessionId, Init(events));
      assert forall k :: 0 <= k < |events| - 1 ==> Init(events)[k] == events[k];
    }
  }

  /** ---------- The frame splitter over a series of chunks ---------- */

  /** What a series of `processNewData` calls passes to `parseSseEvents`,
      starting from `buffer`: the complete parts in order, and the buffer kept
      at the end. */
  function FeedChunks(buffer: string, chunks: seq<string>): (seq<string>, string)
    decreases |chunks|
  {
    if chunks == [] then ([], buffer)
    else
      var parts := Split(buffer + chunks[0], Sep);
      var rest := FeedChunks(Last(parts), chunks[1..]);
      (Init(parts) + rest.0, rest.1)
  }

  /** The last piece of a split holds no separator. */
  lemma {:induction false} SplitLastOpen(s: string, sep: string)
    requires |sep| > 0
    ensures IndexOf(Last(Split(s, sep)), sep, 0).None?
    decreases |s|
  {
    match IndexOf(s, sep, 0)
    case None =>
    case Some(i) =>
      SplitLastOpen(s[i + |sep|..], sep);
  }

  /** Feeding chunks one by one to a buffer without a separator gives the same
      parts and the same final buffer as splitting all the text at once. */
  lemma {:induction false} ChunkBoundaryIndependence(buffer: string, chunks: seq<string>)
    requires IndexOf(buffer, Sep, 0).None?
    ensures FeedChunks(buffer, chunks) ==
      (Init(Split(buffer + Concat(chunks), Sep)), Last(Split(buffer + Concat(chunks), Sep)))
    decreases |chunks|
  {
    if chunks == [] {
      assert buffer + Concat(chunks) == buffer;
      assert Split(buffer, Sep) == [buffer];
    } else {
      var parts := Split(buffer + chunks[0], Sep);
      var rest := Concat(chunks[1..]);
      var tail := Split(Last(parts) + rest, Sep);
      assert FeedChunks(Last(parts), chunks[1..]) == (Init(tail), Last(tail)) by {
        SplitLastOpen(buffer + chunks[0], Sep);
        ChunkBoundaryIndependence(Last(parts), chunks[1..]);
      }
      assert Split(buffer + Concat(chunks), Sep) == Init(parts) + tail by {
        Assoc(buffer, chunks[0], rest);
        SplitAppend(buffer + chunks[0], rest, Sep);
      }
      InitLastAppend(Init(parts), tail);
    }
  }

  lemma Assoc<T>(x: seq<T>, y: seq<T>, z: seq<T>)
    ensures (x + y) + z == x + (y + z)
  {
  }

  lemma DropPrefix<T>(x: seq<T>, y: seq<T>)
    ensures x <= x + y && (x + y)[|x|..] == y
  {
  }

  lemma InitLastAppend<T>(x: seq<T>, y: seq<T>)
    requires |y| >= 1
    ensures Init(x + y) == x + Init(y) && Last(x + y) == Last(y)
  {
  }

  /** Two chunkings of the same response make the same callbacks, in the same
      order, and leave the same buffer. */
  lemma StreamChunkingIrrelevant(parse: JsonParse, c1: seq<string>, c2: seq<string>)
    requires Concat(c1) == Concat(c2)
    ensures FrameEvents(parse, FeedChunks("", c1).0) == FrameEvents(parse, FeedChunks("", c2).0)
    ensures FeedChunks("", c1).1 == FeedChunks("", c2).1
  {
    ChunkBoundaryIndependence("", c1);
    ChunkBoundaryIndependence("", c2);
  }

  /** There is no flush: text after the last blank line makes no callback. */
  lemma UnterminatedTailIgnored(parse: JsonParse, s: string, t: string)
    requires Last(Split(s, Sep)) == ""
    requires IndexOf(t, Sep, 0).None?
    ensures Init(Split(s + t, Sep)) == Init(Split(s, Sep))
    ensures FrameEvents(parse, Init(Split(s + t, Sep))) == FrameEvents(parse, Init(Split(s, Sep)))
  {
    SplitAppend(s, t, Sep);
    assert "" + t == t;
  }

  /** Splitting more text after a carried-over buffer keeps the parts
      already split off. */
  lemma SplitCarry(fed: string, emitted: seq<string>, buffer: string, newData: string)
    requires Split(fed, Sep) == emitted + [buffer]
    ensures Split(fed + newData, Sep) == emitted + Split(buffer + newData, Sep)
  {
    SplitAppend(fed, newData, Sep);
    assert Init(emitted + [buffer]) == emitted;
  }

  /** One `processNewData` step on the split of everything fed so far. */
  lemma FeedStep(fed: string, emitted: seq<string>, buffer: string, newData: string, parts: seq<string>)
    requires Split(fed, Sep) == emitted + [buffer]
    requires parts == Split(buffer + newData, Sep)
    ensures Split(fed + newData, Sep) == (emitted + Init(parts)) + [Last(parts)]
    ensures buffer + newData == Frames(Init(parts)) + Last(parts)
    ensures IndexOf(Last(parts), Sep, 0).None?
  {
    assert Split(fed + newData, Sep) == (emitted + Init(parts)) + [Last(parts)] by {
      SplitCarry(fed, emitted, buffer, newData);
      InitLast(parts);
      Assoc(emitted, Init(parts), [Last(parts)]);
    }
    assert buffer + newData == Frames(Init(parts)) + Last(parts) by {
      SplitIsFramesThenRest(buffer + newData);
    }
    assert IndexOf(Last(parts), Sep, 0).None? by {
      SplitLastOpen(buffer + newData, Sep);
    }
  }

  lemma InitLast<T>(xs: seq<T>)
    requires |xs| >= 1
    ensures Init(xs) + [Last(xs)] == xs
  {
  }

  /** ---------- The transport ---------- */

  /** What the transport does for one request: `getToken` throws before the
      request is opened, or the XHR fires `onprogress` once per snapshot of
      `responseText` and then `onload` (with the final text), `onerror`, or
      neither: a timeout or an abort fires no handler the request sets. */
  datatype Transport =
    | TokenFailure(message: string)
    | Loaded(snapshots: seq<string>, final: string)
    | NetworkError(snapshots: seq<string>)
    | Stalled(snapshots: seq<string>)

  /** The successive values of `responseText` the handlers read. */
  function Responses(t: Transport): seq<string>
  {
    match t
    case TokenFailure(_) => []
    case Loaded(snapshots, final) => snapshots + [final]
    case NetworkError(snapshots) => snapshots
    case Stalled(snapshots) => snapshots
  }

  /** `responseText` only grows: each value extends the ones before. */
  ghost predicate Grows(responses: seq<string>)
  {
    forall i, j :: 0 <= i < j < |responses| ==> responses[i] <= responses[j]
  }

  /** The latest of a list of response texts; "" before the first. */
  function Latest(responses: seq<string>): string
  {
    if responses == [] then "" else Last(responses)
  }

  /** The response text that reached `processNewData` in the end. */
  function Received(t: Transport): string
  {
    Latest(Responses(t))
  }

  /** The text already passed on, the latest of the first `k` values, is a
      prefix of the next `responseText`, which then becomes the latest. */
  lemma NextExtends(responses: seq<string>, k: nat, fed: string)
    requires Grows(responses) && k < |responses|
    requires fed == Latest(responses[..k])
    ensures fed <= responses[k] && responses[k] == Latest(responses[..k + 1])
  {
    assert Last(responses[..k + 1]) == responses[k];
    if k > 0 {
      assert Last(responses[..k]) == responses[k - 1];
    }
  }

  lemma SnapshotsGrow(t: Transport)
    requires !t.TokenFailure? && Grows(Responses(t))
    ensures Grows(t.snapshots)
  {
    assert forall i :: 0 <= i < |t.snapshots| ==> Responses(t)[i] == t.snapshots[i];
  }

  /** The last snapshot, if any, is a prefix of the final text. */
  lemma LastBeforeFinal(t: Transport)
    requires t.Loaded? && Grows(Responses(t))
    ensures Latest(t.snapshots) <= t.final
  {
    var rs := Responses(t);
    if |t.snapshots| > 0 {
      assert rs[|t.snapshots| - 1] == t.snapshots[|t.snapshots| - 1];
      assert rs[|t.snapshots|] == t.final;
    }
  }

  /** After the last handler, the request's callbacks and settlement are
      those of the text received. */
  lemma RequestEnd(parse: JsonParse, t: Transport, fed: string, events: seq<Event>)
    requires !t.TokenFailure?
    requires fed == if t.Loaded? then t.final else Latest(t.snapshots)
    requires events == FrameEvents(parse, Init(Split(fed, Sep)))
    ensures events == RequestEvents(parse, t)
    ensures Outcome(parse, t) ==
      if t.Stalled? then SettleBy(Pending, events)
      else Settle(SettleBy(Pending, events), if t.Loaded? then Resolved else Rejected(SendFailedMessage))
  {
    assert fed == Received(t) by {
      if t.Loaded? {
        assert Last(t.snapshots + [t.final]) == t.final;
      }
    }
  }

  /** The parts before the buffer are the complete frames of the split. */
  lemma SplitParts(fed: string, emitted: seq<string>, buffer: string)
    requires Split(fed, Sep) == emitted + [buffer]
    ensures emitted == Init(Split(fed, Sep))
  {
  }

  /** The callbacks one request makes. */
  function RequestEvents(parse: JsonParse, t: Transport): seq<Event>
  {
    if t.TokenFailure? then [] else FrameEvents(parse, Init(Split(Received(t), Sep)))
  }

  /** How the awaited promise settles: the first `onError` wins over `resolve`
      in `onload` and over `reject` in `onerror`. With no handler for a timeout
      or an abort, a stalled request is settled only by an `onError`. */
  function Outcome(parse: JsonParse, t: Transport): Settlement
  {
    match t
    case TokenFailure(m) => Rejected(m)
    case Loaded(_, _) => Settle(SettleBy(Pending, RequestEvents(parse, t)), Resolved)
    case NetworkError(_) => Settle(SettleBy(Pending, RequestEvents(parse, t)), Rejected(SendFailedMessage))
    case Stalled(_) => SettleBy(Pending, RequestEvents(parse, t))
  }

  /** Reference definition, chunk by chunk: feeding any chunking of the
      received text through the splitter makes exactly the request's callbacks. */
  lemma RequestMatchesChunkFeed(parse: JsonParse, t: Transport, chunks: seq<string>)
    requires !t.TokenFailure? && Concat(chunks) == Received(t)
    ensures RequestEvents(parse, t) == FrameEvents(parse, FeedChunks("", chunks).0)
  {
    ChunkBoundaryIndependence("", chunks);
    assert "" + Concat(chunks) == Concat(chunks);
  }

  /** ---------- The hook state ---------- */

  class StreamHook {
    var streamingText: string
    var isStreaming: bool
    /** The cache keys invalidated so far, in order. */
    var invalidated: seq<QueryKey>

    constructor ()
      ensures streamingText == "" && !isStreaming && invalidated == []
    {
      streamingText := "";
      isStreaming := false;
      invalidated := [];
    }

    /** Entry of `streamMessage`: no check of an in-flight stream. */
    method Begin()
      modifies this`isStreaming, this`streamingText
      ensures isStreaming && streamingText == ""
    {
      isStreaming := true;
      streamingText := "";
    }

    /** The `finally` block of `streamMessage`. */
    method Finish()
      modifies this`isStreaming, this`streamingText
      ensures !isStreaming && streamingText == ""
    {
      isStreaming := false;
      streamingText := "";
    }

    /** `streamMessage(sessionId, content)`: the request's callbacks invalidate
        the caches once per `onDone`, the result is how the awaited promise
        settles, and the streaming state is reset once it has resolved or
        rejected. A request that stalls without an `onError` leaves the promise
        pending, so `finally` never runs and the streamed text stays. */
    method StreamMessage(sessionId: string, parse: JsonParse, transport: Transport)
      returns (outcome: Settlement)
      requires Grows(Responses(transport))
      modifies this
      ensures outcome == Outcome(parse, transport)
      ensures invalidated == old(invalidated) + Invalidations(sessionId, RequestEvents(parse, transport))
      ensures outcome != Pending ==> !isStreaming && streamingText == ""
      ensures outcome == Pending ==> isStreaming && streamingText == Tokens(RequestEvents(parse, transport))
    {
      Begin();
      if transport.TokenFailure? {
        outcome := Rejected(transport.message);
        assert RequestEvents(parse, transport) == [];
      } else {
        var req := new Request(this, sessionId, parse);
        req.Run(transport);
        outcome := req.settlement;
      }
      if outcome != Pending {
        Finish();
      }
    }
  }

  /** ---------- One request: the closure of the XHR handlers ---------- */

  class Request {
    const hook: StreamHook
    const sessionId: string
    const parse: JsonParse
    var processed: nat
    var buffer: string
    var settlement: Settlement
    /** All text passed to `processNewData` so far. */
    ghost var fed: string
    /** All complete parts passed to `parseSseEvents` so far. */
    ghost var emitted: seq<string>
    /** All callbacks made so far. */
    ghost var events: seq<Event>
    /** The hook's text and invalidations when the request was opened. */
    ghost const text0: string
    ghost const keys0: seq<QueryKey>

    /** The parts and the buffer are the split of everything fed so far, and
        the hook reflects every callback made. */
    ghost predicate Valid()
      reads this, hook
    {
      && Split(fed, Sep) == emitted + [buffer]
      && events == FrameEvents(parse, emitted)
      && hook.streamingText == text0 + Tokens(events)
      && hook.invalidated == keys0 + Invalidations(sessionId, events)
    }

    /** Valid, and the promise is settled only by the `onError` callbacks. */
    ghost predicate Open()
      reads this, hook
    {
      Valid() && settlement == SettleBy(Pending, events)
    }

    constructor (hook: StreamHook, sessionId: string, parse: JsonParse)
      ensures this.hook == hook && this.sessionId == sessionId && this.parse == parse
      ensures Open() && processed == 0 && buffer == "" && fed == ""
      ensures text0 == hook.streamingText && keys0 == hook.invalidated
    {
      this.hook := hook;
      this.sessionId := sessionId;
      this.parse := parse;
      processed := 0;
      buffer := "";
      settlement := Pending;
      fed := "";
      emitted := [];
      events := [];
      text0 := hook.streamingText;
      keys0 := hook.invalidated;
      new;
      SplitEmpty(Sep);
    }

    /** The three callbacks given to `parseSseEvents`. */
    method OnEvent(e: Event)
      modifies this`settlement, this`events, hook`streamingText, hook`invalidated
      ensures events == old(events) + [e]
      ensures hook.streamingText == old(hook.streamingText) + Tokens([e])
      ensures hook.invalidated == old(hook.invalidated) + Invalidations(sessionId, [e])
      ensures settlement == SettleBy(old(settlement), [e])
    {
      match e {
        case Token(t) =>
          hook.streamingText := hook.streamingText + t;
        case Done =>
          hook.invalidated := hook.invalidated + [Messages(sessionId)];
          hook.invalidated := hook.invalidated + [SessionList];
        case Failure(message) =>
          if settlement == Pending {
            settlement := Rejected(message);
          }
      }
      events := events + [e];
    }

    /** The callbacks of one `parseSseEvents` call, made in order. */
    method Deliver(evs: seq<Event>)
      modifies this`settlement, this`events, hook`streamingText, hook`invalidated
      ensures events == old(events) + evs
      ensures hook.streamingText == old(hook.streamingText) + Tokens(evs)
      ensures hook.invalidated == old(hook.invalidated) + Invalidations(sessionId, evs)
      ensures settlement == SettleBy(old(settlement), evs)
    {
      var i := 0;
      while i < |evs|
        invariant 0 <= i <= |evs|
        invariant events == old(events) + evs[..i]
        invariant hook.streamingText == old(hook.streamingText) + Tokens(evs[..i])
        invariant hook.invalidated == old(hook.invalidated) + Invalidations(sessionId, evs[..i])
        invariant settlement == SettleBy(old(settlement), evs[..i])
      {
        OnEvent(evs[i]);
        assert evs[..i + 1] == evs[..i] + [evs[i]];
        assert events == old(events) + evs[..i + 1] by {
          Assoc(old(events), evs[..i], [evs[i]]);
        }
        assert hook.streamingText == old(hook.streamingText) + Tokens(evs[..i + 1]) by {
          TokensAppend(evs[..i], [evs[i]]);
          Assoc(old(hook.streamingText), Tokens(evs[..i]), Tokens([evs[i]]));
        }
        assert hook.invalidated == old(hook.invalidated) + Invalidations(sessionId, evs[..i + 1]) by {
          InvalidationsAppend(sessionId, evs[..i], [evs[i]]);
          Assoc(old(hook.invalidated), Invalidations(sessionId, evs[..i]), Invalidations(sessionId, [evs[i]]));
        }
        assert settlement == SettleBy(old(settlement), evs[..i + 1]) by {
          SettleByAppend(old(settlement), evs[..i], [evs[i]]);
        }
        i := i + 1;
      }
      assert evs[..i] == evs;
    }

    /** `processNewData`: append the new data to the buffer, split on the
        blank line, keep the last piece as the buffer and decode each complete
        piece with the blank line re-appended. No text is lost or duplicated,
        and the kept buffer holds no blank line. */
    method ProcessNewData(newData: string)
      requires Open()
      modifies this`buffer, this`settlement, this`fed, this`emitted, this`events,
               hook`streamingText, hook`invalidated
      ensures Open()
      ensures fed == old(fed) + newData
      ensures old(emitted) <= emitted
      ensures old(buffer) + newData == Frames(emitted[|old(emitted)|..]) + buffer
      ensures IndexOf(buffer, Sep, 0).None?
    {
      ghost var fed0, emitted0, buffer0, events0 := fed, emitted, buffer, events;
      buffer := buffer + newData;
      var parts := Split(buffer, Sep);
      buffer := Last(parts);
      fed := fed + newData;
      EmitFrames(Init(parts));
      ghost var added := FrameEvents(parse, Init(parts));
      assert emitted == emitted0 + Init(parts) && events == events0 + added;
      assert Split(fed, Sep) == emitted + [buffer] by {
        FeedStep(fed0, emitted0, buffer0, newData, parts);
      }
      assert buffer0 + newData == Frames(emitted[|emitted0|..]) + buffer by {
        FeedStep(fed0, emitted0, buffer0, newData, parts);
        DropPrefix(emitted0, Init(parts));
      }
      assert IndexOf(buffer, Sep, 0).None? by {
        FeedStep(fed0, emitted0, buffer0, newData, parts);
      }
      assert events == FrameEvents(parse, emitted) by {
        FrameEventsAppend(parse, emitted0, Init(parts));
      }
      assert hook.streamingText == text0 + Tokens(events) by {
        TokensAppend(events0, added);
        Assoc(text0, Tokens(events0), Tokens(added));
      }
      assert hook.invalidated == keys0 + Invalidations(sessionId, events) by {
        InvalidationsAppend(sessionId, events0, added);
        Assoc(keys0, Invalidations(sessionId, events0), Invalidations(sessionId, added));
      }
      assert settlement == SettleBy(Pending, events) by {
        SettleByAppend(Pending, events0, added);
      }
    }

    /** The loop of `processNewData` over the complete parts: one
        `parseSseEvents` call per part, with the blank line re-appended. */
    method EmitFrames(complete: seq<string>)
      modifies this`settlement, this`events, this`emitted, hook`streamingText, hook`invalidated
      ensures emitted == old(emitted) + complete
      ensures events == old(events) + FrameEvents(parse, complete)
      ensures hook.streamingText == old(hook.streamingText) + Tokens(FrameEvents(parse, complete))
      ensures hook.invalidated == old(hook.invalidated) + Invalidations(sessionId, FrameEvents(parse, complete))
      ensures settlement == SettleBy(old(settlement), FrameEvents(parse, complete))
    {
      var i := 0;
      ghost var done: seq<Event> := [];
      while i < |complete|
        invariant 0 <= i <= |complete|
        invariant done == FrameEvents(parse, complete[..i])
        invariant emitted == old(emitted) + complete[..i]
        invariant events == old(events) + done
        invariant hook.streamingText == old(hook.streamingText) + Tokens(done)
        invariant hook.invalidated == old(hook.invalidated) + Invalidations(sessionId, done)
        invariant settlement == SettleBy(old(settlement), done)
      {
        ghost var evs := EmitFrame(complete[i]);
        EmitStep(parse, sessionId, complete, i, done, evs,
                 old(emitted), old(events), old(hook.streamingText), old(hook.invalidated), old(settlement));
        done := done + evs;
        i := i + 1;
      }
      assert complete[..i] == complete;
    }

    /** One iteration: `parseSseEvents(part + "\n\n", callbacks)`. */
    method EmitFrame(part: string) returns (ghost evs: seq<Event>)
      modifies this`settlement, this`events, this`emitted, hook`streamingText, hook`invalidated
      ensures evs == ParseSseEvents(parse, part + Sep).events
      ensures emitted == old(emitted) + [part]
      ensures events == old(events) + evs
      ensures hook.streamingText == old(hook.streamingText) + Tokens(evs)
      ensures hook.invalidated == old(hook.invalidated) + Invalidations(sessionId, evs)
      ensures settlement == SettleBy(old(settlement), evs)
    {
      var decoded := ParseSseEvents(parse, part + Sep);
      Deliver(decoded.events);
      emitted := emitted + [part];
      evs := decoded.events;
    }

    /** The XHR firing its handlers for one request: `onprogress` once per
        snapshot of `responseText`, then `onload` or `onerror`. */
    method Run(transport: Transport)
      requires !transport.TokenFailure? && Grows(Responses(transport))
      requires Open() && processed == 0 && fed == ""
      modifies this`processed, this`buffer, this`settlement, this`fed, this`emitted, this`events,
               hook`streamingText, hook`invalidated
      ensures events == RequestEvents(parse, transport)
      ensures hook.streamingText == text0 + Tokens(events)
      ensures hook.invalidated == keys0 + Invalidations(sessionId, events)
      ensures settlement == Outcome(parse, transport)
    {
      var snapshots := transport.snapshots;
      SnapshotsGrow(transport);
      Progress(snapshots);
      if transport.Loaded? {
        LastBeforeFinal(transport);
        OnLoad(transport.final);
      } else if transport.NetworkError? {
        OnError();
      } else {
        SplitParts(fed, emitted, buffer);
      }
      RequestEnd(parse, transport, fed, events);
    }

    /** `onprogress` once per snapshot of a growing `responseText`. */
    method Progress(snapshots: seq<string>)
      requires Grows(snapshots)
      requires Open() && processed == |fed| && fed == ""
      modifies this`processed, this`buffer, this`settlement, this`fed, this`emitted, this`events,
               hook`streamingText, hook`invalidated
      ensures Open() && processed == |fed|
      ensures fed == Latest(snapshots)
    {
      var k := 0;
      while k < |snapshots|
        invariant 0 <= k <= |snapshots|
        invariant Open() && processed == |fed|
        invariant fed == Latest(snapshots[..k])
      {
        NextExtends(snapshots, k, fed);
        OnProgress(snapshots[k]);
        k := k + 1;
      }
      assert snapshots[..k] == snapshots;
    }

    /** `xhr.onprogress`: pass on the text after `processed` and move
        `processed` to the end; every character is passed on exactly once. */
    method OnProgress(responseText: string)
      requires Open() && processed == |fed| && fed <= responseText
      modifies this`processed, this`buffer, this`settlement, this`fed, this`emitted, this`events,
               hook`streamingText, hook`invalidated
      ensures Open() && processed == |fed|
      ensures fed == responseText
      ensures old(processed) <= processed
    {
      var newData := responseText[processed..];
      processed := |responseText|;
      ProcessNewData(newData);
      assert fed == responseText;
    }

    /** `xhr.onload`: pass on what is left, then `resolve`. There is no flush:
        the buffer keeps the text after the last blank line, undecoded. */
    method OnLoad(responseText: string)
      requires Open() && processed == |fed| && fed <= responseText
      modifies this`buffer, this`settlement, this`fed, this`emitted, this`events,
               hook`streamingText, hook`invalidated
      ensures Valid() && fed == responseText
      ensures events == FrameEvents(parse, Init(Split(responseText, Sep)))
      ensures hook.streamingText == text0 + Tokens(events)
      ensures hook.invalidated == keys0 + Invalidations(sessionId, events)
      ensures settlement == Settle(SettleBy(Pending, events), Resolved)
    {
      var remaining := responseText[processed..];
      if remaining != "" {
        ProcessNewData(remaining);
      }
      assert fed == responseText;
      SplitParts(fed, emitted, buffer);
      if settlement == Pending {
        settlement := Resolved;
      }
    }

    /** `xhr.onerror`: `reject` with the send-failure message. */
    method OnError()
      requires Open()
      modifies this`settlement
      ensures Valid()
      ensures events == FrameEvents(parse, Init(Split(fed, Sep)))
      ensures hook.streamingText == text0 + Tokens(events)
      ensures hook.invalidated == keys0 + Invalidations(sessionId, events)
      ensures settlement == Settle(SettleBy(Pending, events), Rejected(SendFailedMessage))
    {
      SplitParts(fed, emitted, buffer);
      if settlement == Pending {
        settlement := Rejected(SendFailedMessage);
      }
    }
  }
}
