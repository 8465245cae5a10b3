# Chat stream decoder and sign-in screen, in Dafny

This project models two parts of a React Native chat client.

**The chat stream (`useStreamMessage`).** The client sends a message and reads the reply from one HTTP response that arrives in pieces. The model covers:

- `processNewData`, the frame splitter. It appends each new piece of `responseText` to a carried-over `buffer`, splits on the blank line `"\n\n"`, keeps the last piece as the new buffer, and decodes every complete piece with the blank line re-appended.
- `parseSseEvents`, the decoder. It reads the lines of a frame that start with exactly `"data: "`. A `[DONE]` payload returns, unparsable JSON is skipped, an `error` payload calls `onError` and returns, a `token` payload calls `onToken`, and a `messageId` payload calls `onDone`.
- The XHR handlers. `onprogress` passes on the text after the `processed` offset, `onload` passes on what is left and resolves, and `onerror` rejects.
- The hook state `streamingText`/`isStreaming`, which is set on entry and reset in `finally`.
- The two cache invalidations that each `onDone` makes.

The decoder is a simplified subset of the Server-Sent Events format of section 9.2 of the WHATWG HTML Living Standard:

- frames end only at `"\n\n"`;
- the prefix is exactly `"data: "`, with one space;
- every data line is parsed on its own;
- `event:`, `id:` and `retry:` lines are ignored.

**The sign-in screen (`app/index.tsx`).** `handleSecondFactor` picks a second factor by priority: totp, then phone_code, then backup_code. `handleSignIn` and `handleMFAVerify` are guarded by `loading`, and two buttons on the MFA screen change state: "use a backup code" and "back". A factor list that holds only backup_code factors still opens the backup-code screen, as the comment at app/index.tsx:66-70 records. The model keeps that behaviour.

## Modules

- `Text` (text.dfy): JavaScript's `indexOf`, `split` and `join` for a non-empty separator. The key lemmas are the round trip `Join(Split(s)) == s` and `SplitAppend`, which says how splitting `s + t` relates to splitting `s`. `SplitAppend` is what makes the carried buffer reproduce a one-shot split.
- `Sse` (sse.dfy): `parseSseEvents` as pure functions. `JSON.parse` is a parameter, `parse: string -> Option<Payload>`, where `None` means the parse threw. The result is the ordered list of callbacks plus a flag for an early return.
- `Stream` (stream.dfy), with two classes:
  - `Request` is the closure of one XHR. It holds `processed`, `buffer` and the promise's settlement, plus ghost histories of the text fed, the parts emitted and the callbacks made.
  - `StreamHook` holds `streamingText`, `isStreaming` and the invalidated cache keys.
  - The class invariant `Valid` says that the parts emitted plus the buffer are exactly the split of all text fed so far, and that the hook's text and cache keys are the fold of every callback made (`Tokens`, `Invalidations`). `Open` adds that the promise is settled only by the `onError` callbacks so far (`SettleBy`).
  - The transport is a value, `Transport`: the `getToken` failure, or the sequence of growing `responseText` snapshots followed by `onload`, by `onerror`, or by neither (`Stalled`: the request sets no handler for a timeout or an abort).
  - `FeedChunks` is a reference definition of the splitter over a list of chunks, as a function; `RequestMatchesChunkFeed` ties it to the callbacks the `Request` handlers make.
- `SignIn` (signin.dfy): the factor lookup and choice as functions, and the screen as a class. Clerk calls are parameters of type `ClerkCall<T> = Ok(value) | Throws(error)`. Alerts, Clerk calls and navigations are logged in sequence fields.

## Behaviour of the code worth noting

The model follows the code, which differs from the usual reading of an event stream in these places:

- **No flush.** `onload` does not decode the text after the last `"\n\n"`; it stays in `buffer` (see `Stream.UnterminatedTailIgnored`).
- **`[DONE]` and `error` stop only one call of `parseSseEvents`**, which is one frame, because `processNewData` calls it once per frame. Later frames are still decoded: tokens are still appended and `onDone` still invalidates the caches after the promise has been rejected.
- **Settlement.** An `onError` can be followed by more `onError` calls. The promise keeps the first settlement (`Stream.FirstErrorWins`). A `[DONE]` with no completion does not fail the request: `onload` resolves it.
- **Both callbacks.** A payload with both `token` and `messageId` calls both, token first.
- **No timeout or abort handler.** A request that ends without `onload` or `onerror` leaves the promise pending unless an `onError` came, so `finally` never runs and `isStreaming` stays true (`Stream.StreamHook.StreamMessage`).

## Model

| member | source | states |
|---|---|---|
| Text.Split | src/hooks/chat/useStreamMessage.ts:73 | `s.split(sep)` is never an empty array (so `parts.pop()` always yields a piece); its pieces are pinned down by `SplitJoin` and `SplitPieceTerminated` |
| Text.IndexOfSpec | src/hooks/chat/useStreamMessage.ts:73 | the occurrence `indexOf` finds is at or after the start, and none lies between the start and it; `None` means there is none at all |
| Text.IndexOfNoneIffAbsent | src/hooks/chat/useStreamMessage.ts:73-74 | `indexOf` returns `None` exactly when the text holds no occurrence of the separator, in both directions |
| Text.SplitJoin | src/hooks/chat/useStreamMessage.ts:19 | joining the pieces of `s.split(sep)` with `sep` gives back `s`, and no piece contains `sep`: no character is lost or duplicated |
| Text.SplitAppend | src/hooks/chat/useStreamMessage.ts:72-74 | splitting `s + t` keeps every complete piece of `s` and re-splits only its last, unterminated piece together with `t` |
| Text.SplitTerminated | src/hooks/chat/useStreamMessage.ts:77 | a piece whose first separator is the one re-appended splits into the piece and an empty string |
| Text.SplitPieceTerminated | src/hooks/chat/useStreamMessage.ts:76-77 | every piece but the last, with the separator re-appended, has its first separator exactly at its end |
| Text.SplitIsFramesThenRest | src/hooks/chat/useStreamMessage.ts:73-74 | the complete pieces, each followed by `"\n\n"`, and then the last piece give back the split text |
| Sse.PayloadOf | src/hooks/chat/useStreamMessage.ts:24 | the payload is the line minus its first 6 characters: prefix followed by payload gives back the line |
| Sse.DecodeLine | src/hooks/chat/useStreamMessage.ts:23-43 | a line without the prefix, or with unparsable JSON, makes no callback and does not return; an `onError` is always the last callback |
| Sse.DecodeLines | src/hooks/chat/useStreamMessage.ts:22-44 | the inner loop makes at most one `onError`, always the last callback, and after it the loop returns |
| Sse.DecodeParts | src/hooks/chat/useStreamMessage.ts:19-45 | the outer loop keeps the same rule: an `onError` is last and ends the call |
| Sse.ParseSseEvents | src/hooks/chat/useStreamMessage.ts:11-46 | one call of `parseSseEvents` makes at most one `onError`, as its last callback |
| Sse.DecodeLinesAppend | src/hooks/chat/useStreamMessage.ts:22-44 | lines after an early return are not decoded; otherwise the callbacks of two runs of lines are concatenated in order |
| Sse.SilentLineDropped | src/hooks/chat/useStreamMessage.ts:23-32 | a line that makes no callback can be removed anywhere without changing the decoding |
| Sse.NonDataLineIgnored | src/hooks/chat/useStreamMessage.ts:23 | a line that does not start with exactly `"data: "` is ignored |
| Sse.UnparsableLineSkipped | src/hooks/chat/useStreamMessage.ts:28-32 | a data line whose JSON does not parse is skipped, and the lines after it are still decoded |
| Sse.DoneLineStops | src/hooks/chat/useStreamMessage.ts:24-25 | `data: [DONE]` returns: the callbacks are those of the lines before it, and nothing after it is decoded |
| Sse.ErrorLineStops | src/hooks/chat/useStreamMessage.ts:34-37 | an `error` payload makes one `onError` with its message, and nothing after it is decoded |
| Sse.TokenThenDone | src/hooks/chat/useStreamMessage.ts:38-43 | a payload without `error` calls `onToken` (if it has `token`), then `onDone` (if it has `messageId`), and decoding goes on with the next line |
| Sse.DecodePartsAppend | src/hooks/chat/useStreamMessage.ts:21-45 | an early return in one piece skips every later piece of the same text; otherwise the callbacks are concatenated in order |
| Sse.CompleteFrameDecodesItsLines | src/hooks/chat/useStreamMessage.ts:77 | a complete frame with the blank line re-appended decodes exactly as its own lines: the empty piece after it adds nothing |
| Sse.EmittedPartDecodesItsLines | src/hooks/chat/useStreamMessage.ts:76-77 | every complete part split off a text, passed on with `"\n\n"` re-appended, decodes exactly as its own lines |
| Stream.FrameEvents | src/hooks/chat/useStreamMessage.ts:76-85 | the callbacks of one `parseSseEvents` call per complete part, with the blank line re-appended, in part order (no contract of its own; see `FrameEventsAppend` and `EmitFrames`) |
| Stream.Outcome | src/hooks/chat/useStreamMessage.ts:83-100 | how the awaited promise settles: the first `onError`, else `onload`'s resolve or `onerror`'s reject; a stalled request stays pending unless an `onError` came; a `getToken` failure rejects (no contract of its own; see `FirstErrorWins` and `Run`) |
| Stream.FeedChunks | src/hooks/chat/useStreamMessage.ts:71-86 | reference definition of a series of `processNewData` calls: the complete parts passed on and the buffer kept (no contract of its own; see `ChunkBoundaryIndependence`) |
| Stream.RequestMatchesChunkFeed | src/hooks/chat/useStreamMessage.ts:71-98 | for any chunking of the received text, the callbacks of the request are those of the parts the chunk-by-chunk splitter emits |
| Stream.FrameEventsAppend | src/hooks/chat/useStreamMessage.ts:76-85 | frames are decoded independently: an early return in one frame does not stop later frames, and callbacks keep frame order |
| Stream.TokensAppend | src/hooks/chat/useStreamMessage.ts:78 | the streamed text is the in-order concatenation of the tokens of all callbacks |
| Stream.InvalidationsAppend | src/hooks/chat/useStreamMessage.ts:79-82 | the invalidated keys are the in-order concatenation of both keys for each `onDone` |
| Stream.SettleByAppend | src/hooks/chat/useStreamMessage.ts:83 | settling by two runs of callbacks is settling by the first, then by the second |
| Stream.SettledStays | src/hooks/chat/useStreamMessage.ts:83 | once the promise is settled, later `reject` calls leave it as it is |
| Stream.FirstErrorWins | src/hooks/chat/useStreamMessage.ts:83 | the promise is rejected with the message of the first `onError` (a reference definition scanning from the front), and stays pending without one |
| Stream.InvalidatesOnlyOnDone | src/hooks/chat/useStreamMessage.ts:79-82 | the caches are invalidated if and only if some `onDone` was made |
| Stream.SplitLastOpen | src/hooks/chat/useStreamMessage.ts:74 | the piece kept as the buffer holds no blank line |
| Stream.ChunkBoundaryIndependence | src/hooks/chat/useStreamMessage.ts:71-86 | feeding chunks one by one yields the same complete parts, in order, and the same final buffer as splitting all the text at once |
| Stream.StreamChunkingIrrelevant | src/hooks/chat/useStreamMessage.ts:71-92 | two chunkings of the same response make the same callbacks in the same order and leave the same buffer |
| Stream.UnterminatedTailIgnored | src/hooks/chat/useStreamMessage.ts:94-98 | there is no flush: text after the last blank line adds no complete part and makes no callback |
| Stream.SplitCarry | src/hooks/chat/useStreamMessage.ts:72-74 | splitting more text after the carried buffer keeps the parts already emitted |
| Stream.FeedStep | src/hooks/chat/useStreamMessage.ts:72-74 | one step of the splitter keeps the invariant "split of all text fed = parts emitted + buffer", loses no text, and leaves a buffer without a blank line |
| Stream.StreamHook.constructor | src/hooks/chat/useStreamMessage.ts:51-52 | the hook starts with empty `streamingText`, `isStreaming` false and no invalidation |
| Stream.StreamHook.Begin | src/hooks/chat/useStreamMessage.ts:56-57 | entry sets `isStreaming` and clears `streamingText`, with no in-flight check |
| Stream.StreamHook.Finish | src/hooks/chat/useStreamMessage.ts:104-106 | `finally` clears `isStreaming` and `streamingText` |
| Stream.StreamHook.StreamMessage | src/hooks/chat/useStreamMessage.ts:54-110 | the awaited promise settles as `Outcome`; the caches are invalidated twice per `onDone` of the decoded text; once the promise has resolved or rejected, `finally` resets `isStreaming` and `streamingText`; if it stays pending (a stall with no `onError`), `isStreaming` stays true and `streamingText` holds the tokens received |
| Stream.Request.constructor | src/hooks/chat/useStreamMessage.ts:68-69 | `processed` is 0 and `buffer` empty, with nothing fed and the promise pending |
| Stream.Request.OnEvent | src/hooks/chat/useStreamMessage.ts:78-83 | `onToken` appends the token, `onDone` invalidates the messages and sessions keys, `onError` rejects if still pending |
| Stream.Request.Deliver | src/hooks/chat/useStreamMessage.ts:77-84 | the callbacks of one decoding, made in order, extend the text, the keys and the settlement by exactly those callbacks |
| Stream.Request.ProcessNewData | src/hooks/chat/useStreamMessage.ts:71-86 | keeps `Valid`: old buffer + new data equals the emitted parts each followed by `"\n\n"`, then the new buffer; the buffer holds no blank line; all text fed so far is recorded |
| Stream.Request.EmitFrames | src/hooks/chat/useStreamMessage.ts:76-85 | the loop over complete parts adds, in order, exactly the callbacks of one `parseSseEvents` call per part |
| Stream.Request.EmitFrame | src/hooks/chat/useStreamMessage.ts:77-84 | one part is decoded with the blank line re-appended and its callbacks are applied |
| Stream.Request.OnProgress | src/hooks/chat/useStreamMessage.ts:88-92 | `processed` only grows and moves to the end of `responseText`; afterwards all text passed on is exactly `responseText`, each character once |
| Stream.Request.Progress | src/hooks/chat/useStreamMessage.ts:88-92 | after `onprogress` for each growing snapshot, the text passed on is exactly the latest snapshot and `Valid` holds |
| Stream.Request.OnLoad | src/hooks/chat/useStreamMessage.ts:94-98 | passes on the rest, so all of `responseText` is fed and `Valid` holds; the callbacks are those of its complete frames only, the streamed text is their tokens; `resolve` takes effect only if no `onError` came first |
| Stream.Request.OnError | src/hooks/chat/useStreamMessage.ts:100 | `Valid` holds and the streamed text is the tokens so far; `reject` with the send-failure message takes effect only if no `onError` came first |
| Stream.Request.Run | src/hooks/chat/useStreamMessage.ts:88-100 | after the handlers, the callbacks are those of the complete frames of the received text, the streamed text is their tokens, the keys are their invalidations, and the settlement is `Outcome` |
| SignIn.Find | app/index.tsx:76-78 | `find` returns a factor exactly when one has the strategy, and then the first such factor |
| SignIn.PhoneArgument | app/index.tsx:94 | the argument of `preparePhone`: `phoneNumberId`, or `''` when it is absent (no contract of its own; used by `HandleSecondFactor`) |
| SignIn.MessageOf | app/index.tsx:131 | `err instanceof Error ? err.message : fallback` (no contract of its own; used by the alerts of `CompleteSignIn` and `CompleteMFAVerify`) |
| SignIn.ChooseStrategy | app/index.tsx:80-98 | totp if any factor is totp; else phone_code if any is; else backup_code if any is; else none, each an if-and-only-if |
| SignIn.BackupOnlyOpensBackupScreen | app/index.tsx:66-98 | a non-empty list of only backup_code factors selects the backup-code screen |
| SignIn.SignInScreen.constructor | app/index.tsx:48-57 | the initial screen state: empty inputs, not loading, not on the MFA screen, strategy totp, no backup code |
| SignIn.SignInScreen.SignInEnabled | app/index.tsx:294 | the sign-in button is enabled only with an e-mail, a password and no request in flight (no contract of its own) |
| SignIn.SignInScreen.VerifyEnabled | app/index.tsx:221 | the verify button is enabled only with a code and no request in flight (no contract of its own) |
| SignIn.SignInScreen.BackupSwitchOffered | app/index.tsx:230 | the backup-code link is shown only on the MFA screen, with a backup code, when the strategy is not already backup_code (the precondition of `UseBackupCode`) |
| SignIn.SignInScreen.SetEmail | app/index.tsx:276-277 | the e-mail input sets `email` |
| SignIn.SignInScreen.SetPassword | app/index.tsx:286-287 | the password input sets `password` |
| SignIn.SignInScreen.SetMfaCode | app/index.tsx:211-212 | the code input sets `mfaCode` |
| SignIn.SignInScreen.HandleSecondFactor | app/index.tsx:71-103 | no known factor: one alert and nothing else changes; otherwise `hasBackupCode` iff a backup_code factor exists; `preparePhone` is called once, with `phoneNumberId ?? ''`, only when phone_code is chosen; if it throws, the error is returned and `pendingMFA`/`mfaStrategy` are unchanged; else the chosen strategy is set and `pendingMFA` becomes true |
| SignIn.SignInScreen.Begin | app/index.tsx:114-115 | the handler starts only when loaded, `signIn` exists and not loading; then `loading` is set |
| SignIn.SignInScreen.CompleteSignIn | app/index.tsx:116-135 | `SignInFinished`: one `create` with the e-mail and password; complete: `setActive` then navigate home; needs_second_factor: the factor choice with every field `HandleSecondFactor` sets, and a `preparePhone` failure alerted; a throw: an alert with the error's message or the fallback; the strategy and backup flag change only on needs_second_factor; `loading` is always reset |
| SignIn.SignInScreen.HandleSignIn | app/index.tsx:113-136 | nothing changes when not loaded, without `signIn` or while loading; otherwise the whole sign-in runs, with the outcome `SignInFinished` states |
| SignIn.SignInScreen.CompleteMFAVerify | app/index.tsx:141-156 | `VerifyFinished`: one attempt with the current strategy's name and code; complete: `setActive` then navigate home; a throw of the attempt or of `setActive`: an alert and `mfaCode` cleared; `loading` is always reset |
| SignIn.SignInScreen.HandleMFAVerify | app/index.tsx:138-157 | nothing changes when not loaded, without `signIn` or while loading; otherwise the whole verification runs, with the outcome `VerifyFinished` states, so a failed verification clears the code |
| SignIn.SignInScreen.UseBackupCode | app/index.tsx:230-236 | offered only with a backup code and another strategy; sets backup_code and clears the code, after which it is no longer offered |
| SignIn.SignInScreen.Back | app/index.tsx:242-247 | leaves the MFA screen and clears the code |

## Left out

- XHR plumbing (`open`, `setRequestHeader`, `send`, the request body), `getToken` and the Android `localhost` rewrite of the URL are I/O. The response is the `Transport` value: growing `responseText` snapshots, then `onload`, `onerror` or no handler at all, or a `getToken` failure.
- React mechanics (`useState`, `useCallback`, `useEffect`, re-renders) are not modelled. State is plain fields updated in order, and a functional update `prev => prev + t` is an append.
- Async scheduling: a `finally` runs after the promise settles, and the model does not represent XHR callbacks that could still fire after that. There is no in-flight guard, so two overlapping `streamMessage` calls can interleave; the model runs one call at a time.
- `JSON.parse` is a parameter. A payload that parses to a non-object (`null`, `42`) makes the `'error' in parsed` test at src/hooks/chat/useStreamMessage.ts:34 throw outside the `try`. This case cannot be expressed in the model: `Payload` is always an object.
- React Query's refetching after an invalidation is left out; only the invalidated keys are recorded.
- Clerk and the router are foreign calls. `signIn.create`, `attemptSecondFactor`, `prepareSecondFactor`, `setActive`, `router.replace` and `Alert.alert` are parameters or entries in log fields.
- `handleGoogleSignIn` and SSO are not part of this model; they are foreign calls wrapped around the same `handleSecondFactor`.
- The `useEffect` redirect when already signed in is not modelled.
- `app/sign-up.tsx` is not part of this model.
- Rendering, styles and the MFA labels are not modelled; the buttons' enabled conditions are the predicates `SignInEnabled`, `VerifyEnabled` and `BackupSwitchOffered`.
- Session title truncation, the choice of the default model and the optimistic pending-message overlay are not part of this model; their code is not among the files modelled.
