# rod `lib/proto` utilities, modelled in Dafny

This project models the hand-written helpers of rod's Chrome DevTools Protocol
package, `lib/proto/utils.go`. It covers:

- the typed call dispatcher `Call`, which normalizes a request, sends it once
  through the caller's client and decodes the reply into a response container;
- the normalization layer `Normalize`, and the mouse-event normalization that
  forces `deltaX` and `deltaY` into the encoding of a wheel event;
- the dynamic `JSON` value: a raw byte buffer together with the view parsed
  from it, and its `NewJSON`, `UnmarshalJSON`, `MarshalJSON` and `Set`;
- `PatternToReg`, which turns a URL glob of `FetchRequestPattern` into an
  anchored regular expression;
- `ParseMethodName`, which splits `Domain.name` identifiers;
- the quad geometry behind clicks and touches: `DOMQuad.Len`, `Each` and
  `Center`, `OnePointInside` and `InputTouchPoint.MoveTo`.

Modules:

- `Wrappers`: `Option` and `Result`.
- `Wire`: bytes, errors and JSON objects (key to value).
- `Pattern`, `MethodNames` and `Geometry`: pure functions and lemmas. `Each`
  is a method with a loop over the vertices, as in the source. `Center` adds
  up, in a loop of its own, the vertices that `Each` visits; that loop stands
  for the closure `Center` passes to `Each`. `InputTouchPoint` is
  a class whose `MoveTo` updates its fields.
- `DynamicJson`: the class `JSON`. Its invariant `Valid` says that the view is
  the one parsed from the buffer.
- `MouseEvents`: the default encoding of a mouse event and its normalization.
- `Dispatch`: `Normalize`, a `Client` class that records the requests it is
  handed, and `Call`. `Call` is proved against `CallOutcome`, a function of
  the state before the call, and the lemmas about `CallOutcome` state what
  the dispatcher promises.

Facts about the code that the model keeps:

- `Call` returns a decoding error exactly as the decoder produced it.
- For an identifier with more than one dot, `ParseMethodName` returns the
  first two pieces of the split.
- `Set` returns a value built from whatever bytes the patch produced, even
  when the patch also returned an error.
- Not every unescaped `*` or `?` is expanded (see Findings).

## Model

| member | source | states |
|---|---|---|
| Pattern.TrimSpace | lib/proto/utils.go:200 | the result occurs in the input with only white space (Go's `unicode.IsSpace` set) around it, and neither starts nor ends with white space |
| Pattern.ReplaceUnescaped | lib/proto/utils.go:197-198 | one left-to-right, non-overlapping `ReplaceAllString` pass of `([^\\])op`: the first character is always kept, since a match writes its captured character back through `$1`; a one-character replacement keeps the length and a longer one never shortens the string; what it computes at each position is stated by `ReplaceIsExpand` |
| Pattern.Expanded | lib/proto/utils.go:196-198 | the glob with a space in front and the `*` and `?` passes applied: the space stays at the front and the result is at least as long as the spaced glob |
| Pattern.ReplaceFromIsExpand | lib/proto/utils.go:197-198 | a `ReplaceAllString` pass of `([^\\])op`, scanned left to right from a position no match consumed, equals the per-position description: an `op` after a non-backslash that no earlier match consumed becomes the replacement, and every other character is copied |
| Pattern.ReplaceIsExpand | lib/proto/utils.go:197-198 | a whole pass equals its per-position description |
| Pattern.ReplaceWithoutOperator | lib/proto/utils.go:197-198 | a pass leaves a string without its operator unchanged |
| Pattern.PatternToReg | lib/proto/utils.go:191-201 | the empty glob, and only it, gives the empty expression; any other glob gives an expression starting with `\A` and ending with `\z` |
| Pattern.PatternToRegTrimmed | lib/proto/utils.go:196-200 | between the anchors lies the expanded glob, trimmed of white space at both ends and of nothing else |
| Pattern.PatternToRegExpands | lib/proto/utils.go:196-200 | the expression is the two per-position passes (`*` to `.*`, then `?` to `.`) over the glob with a space in front, trimmed and anchored; nothing else is escaped |
| Pattern.PatternWithoutOperators | lib/proto/utils.go:191-200 | a glob without `*` and `?` becomes itself, trimmed and anchored, with its regular-expression metacharacters left as they are |
| Pattern.LeadingStarExpands | lib/proto/utils.go:196-197 | a `*` at the start of the glob is expanded to `.*`, thanks to the space put in front |
| Pattern.LeadingQuestionExpands | lib/proto/utils.go:196-198 | a `?` at the start of the glob is expanded to `.` |
| Pattern.EscapedStarExample | lib/proto/utils.go:197 | `a\*b` is kept as it is, backslash included, so the expression matches only the text `a*b` |
| Pattern.ExtensionExample | lib/proto/utils.go:191-200 | `*.png` becomes `\A.*.png\z` |
| Pattern.DoubleStarExample | lib/proto/utils.go:197 | as written, `**` becomes `\A.**\z`: the second `*` is not expanded |
| Pattern.DoubleQuestionExample | lib/proto/utils.go:198 | as written, `??` becomes `\A.?\z`: the second `?` is not expanded |
| Pattern.PatternToRegIntended | lib/proto/utils.go:196-200 | the corrected translation, in which every operator not directly after a backslash expands; it is anchored like the original and empty exactly for the empty glob |
| Pattern.ExpandIsIntended | lib/proto/utils.go:197-198 | where no operator directly follows another, the scan and the corrected rule agree at every position |
| Pattern.ReplaceIsIntended | lib/proto/utils.go:197-198 | a whole pass over a string without a run of its operator does what the corrected rule does |
| Pattern.PatternToRegAsIntended | lib/proto/utils.go:196-200 | a glob whose passes meet no run of their operator is translated exactly as the corrected translation does |
| Pattern.IntendedWithoutOperator | lib/proto/utils.go:197-198 | the corrected pass leaves a string without its operator unchanged |
| Pattern.IntendedDoubleQuestion | lib/proto/utils.go:198 | under the corrected rule, `??` becomes `\A..\z`: exactly two characters |
| Pattern.IntendedDoubleStar | lib/proto/utils.go:197 | under the corrected rule, `**` becomes `\A.*.*\z` |
| MethodNames.Split | lib/proto/utils.go:67 | `strings.Split` on `.` gives at least one piece, and no piece contains a dot |
| MethodNames.SplitCount | lib/proto/utils.go:67 | there is one more piece than there are dots |
| MethodNames.SplitFirst | lib/proto/utils.go:67 | the first piece is the text before the first dot, and the other pieces are the pieces of the text after it |
| MethodNames.JoinSplit | lib/proto/utils.go:67 | joining the pieces with dots gives back the string |
| MethodNames.FirstTwoPieces | lib/proto/utils.go:67-68 | for a string with a dot there are at least two pieces, and the first two, joined by a dot, are a prefix of the string that ends at its end or at the next dot |
| MethodNames.ParseMethodName | lib/proto/utils.go:66-69 | the domain and the name contain no dot; the domain, a dot and the name are a prefix of the identifier that ends at its end or at the next dot |
| MethodNames.ParseWellFormed | lib/proto/utils.go:66-69 | for an identifier with exactly one dot, the domain, a dot and the name are the identifier |
| Geometry.Len | lib/proto/utils.go:210-212 | the number of vertices is the number of whole coordinate pairs |
| Geometry.Vertices | lib/proto/utils.go:215-218 | vertex `i` is the point of coordinates `2i` and `2i+1`, one per pair |
| Geometry.Each | lib/proto/utils.go:215-219 | the callback is called once per vertex, in increasing order of index, with the vertex and its index |
| Geometry.Center | lib/proto/utils.go:222-229 | the result is the mean of the vertices |
| Geometry.SumWithin | lib/proto/utils.go:223-227 | the sums built by `Center` lie between `n` copies of the lower corner and `n` copies of the upper corner of any box that holds all `n` vertices |
| Geometry.CenterWithin | lib/proto/utils.go:222-229 | the center lies inside every box that holds all the vertices, such as the bounding box |
| Geometry.SquareExample | lib/proto/utils.go:222-229 | the square `(0,0) (2,0) (2,2) (0,2)` has four vertices and its center at `(1,1)` |
| Geometry.OnePointInside | lib/proto/utils.go:232-240 | no point exactly when there are no quads; otherwise the center of the first quad only |
| Geometry.OnePointInsideWithin | lib/proto/utils.go:232-240 | the point chosen lies inside every box that holds the first quad |
| Geometry.InputTouchPoint.MoveTo | lib/proto/utils.go:243-246 | the touch point is at `(x, y)` afterwards, and no other field changes |
| DynamicJson.JSON.constructor | lib/proto/utils.go:89-92 | the zero value has an empty buffer and the view parsed from it |
| DynamicJson.JSON.FromBytes | lib/proto/utils.go:95-104 | `NewJSON` of bytes adopts them as the buffer, and the view is parsed from them |
| DynamicJson.JSON.FromValue | lib/proto/utils.go:95-104 | `NewJSON` of any other value takes its encoding as the buffer, and the view is parsed from it |
| DynamicJson.JSON.UnmarshalJSON | lib/proto/utils.go:107-111 | decoding adopts the bytes as the new buffer, parses the view again and never fails |
| DynamicJson.JSON.MarshalJSON | lib/proto/utils.go:114-119 | encoding gives the buffer, or `null` when the buffer is empty; it is never empty |
| DynamicJson.JSON.Set | lib/proto/utils.go:133-137 | the result is a new value whose buffer is the patch of the receiver's encoding at the path, and the patch's error is returned with it; the receiver is unchanged |
| DynamicJson.DecodeEncode | lib/proto/utils.go:107-119 | `UnmarshalJSON` of bytes followed by `MarshalJSON` of the value gives back non-empty bytes unchanged, and `null` for empty bytes |
| DynamicJson.EncodeDecode | lib/proto/utils.go:107-119 | `MarshalJSON` of a value followed by `UnmarshalJSON` of the result into a new value gives a value with the same encoding, and the same buffer unless it was empty |
| MouseEvents.Marshal | lib/proto/utils.go:180 | the default encoding always holds the type and the position, and only the known fields |
| MouseEvents.MarshalOmitsZeroFields | lib/proto/utils.go:180 | modifiers, button and click count are encoded exactly when they are not zero, with the event's values |
| MouseEvents.MarshalOmitsZeroDeltas | lib/proto/utils.go:180 | the deltas are encoded by default exactly when they are not zero |
| MouseEvents.Normalize | lib/proto/utils.go:179-188 | normalization never fails; for a wheel event both deltas are present with the event's values; any other event gets the default encoding; nothing the default encoding holds is lost or changed; and no other key is added |
| MouseEvents.WheelZeroDeltaExplicit | lib/proto/utils.go:182-185 | a wheel event with zero deltas has no deltas in its default encoding, and its normalized encoding is that encoding with explicit zero deltas |
| MouseEvents.WheelNonZeroUnchanged | lib/proto/utils.go:182-185 | a wheel event whose deltas are both non-zero is normalized to its default encoding |
| MouseEvents.Hook | lib/proto/utils.go:175-186 | every mouse event has its own normalization, which never fails and gives a wheel event both deltas |
| Dispatch.Normalize | lib/proto/utils.go:80-86 | a request with its own normalization is encoded by it, and any other request by the default encoder |
| Dispatch.NormalizeMouseEvent | lib/proto/utils.go:80-86 | a mouse event is encoded by its own normalization whatever the default encoder does, so a wheel event's payload holds both deltas |
| Dispatch.Client.Call | lib/proto/utils.go:18-20 | the client records exactly one more request and returns the transport's reply to it |
| Dispatch.Call | lib/proto/utils.go:36-57 | the requests recorded by the client, the response container and the error afterwards are those `CallOutcome` gives for the state before |
| Dispatch.CallSendsOnce | lib/proto/utils.go:39-44 | a failed normalization returns its error and sends nothing; otherwise exactly one request, with the caller's session, the method and the payload, is appended to those sent before |
| Dispatch.CallClientErrorUnchanged | lib/proto/utils.go:44-47 | an error of the client is returned unchanged, and the response container keeps its value |
| Dispatch.CallWithoutContainer | lib/proto/utils.go:49-56 | without a container nothing is decoded, and the call succeeds exactly when normalization and the client succeed |
| Dispatch.CallSucceedsIff | lib/proto/utils.go:36-57 | a call succeeds exactly when normalization, the client and, if there is a container, the decoder all succeed |
| Dispatch.CallSendsWheelDeltas | lib/proto/utils.go:39-44 | a wheel event sent through the dispatcher reaches the client with both deltas in its payload, even when they are zero |

## Left out

- The time codecs `TimeSinceEpoch` and `MonotonicTime` (lib/proto/utils.go:139-173) are not modelled. They are float64 arithmetic on durations.
- `GetType` (lib/proto/utils.go:59-63) is not modelled. It reads a registry of reflected types defined in a generated file that is not part of this model.
- `JSON.Join` and every read through the gjson view (lib/proto/utils.go:121-130) are not modelled. gjson's parser and sjson's patcher are not part of this model:
  - the view is represented by the bytes it was parsed from;
  - `sjson.SetBytes`, `utils.MustToJSONBytes`, `json.Marshal` and `json.Unmarshal` are function parameters.
- The `Payload` interface (lib/proto/utils.go:22-27) has no behaviour here and is not modelled.
- The context that `CallContext` supplies is only forwarded to the client, so it is left out. Cancellation and timeouts belong to the client.
- Concurrency is not modelled; the dispatcher keeps no shared state.
- The example programs under `lib/examples` are not modelled.
- Dispatch payloads are JSON objects (key to value) rather than their bytes. The mouse normalization and the dispatcher therefore share one type, and `json.RawMessage` framing is not modelled.
- `InputDispatchMouseEvent` keeps only the fields the normalization concerns: type, position, modifiers, button, click count and the deltas. Its other optional fields are not modelled, and neither are `InputTouchPoint`'s JSON tags. The generated file that defines these types is not part of this model.
- MouseEvents.Normalize: `sjson.SetBytes` is modelled as setting a top-level key. The errors of `json.Marshal` and `sjson.SetBytes`, which the source discards, are not modelled.
- Coordinates and deltas are exact reals, not float64. Rounding, NaN and infinities are not modelled.
- Geometry.Center: requires at least one vertex. On an empty quad the source divides zero by zero and returns NaN coordinates, which reals cannot represent.
- Geometry.OnePointInside: requires the first quad to have a vertex, for the same reason.
- MethodNames.ParseMethodName: requires a dot in the identifier. Without one the source indexes past the end of the split and panics.
- DynamicJson.JSON.MarshalJSON: the error result is always nil and is dropped.
- DynamicJson.JSON.UnmarshalJSON: the buffer is a value, so the model does not capture aliasing. In Go, `UnmarshalJSON` and `NewJSON` keep the caller's slice without copying it, and `MarshalJSON` hands out the buffer itself. A later write through a shared slice changes the buffer without re-parsing the view, which breaks the invariant `Valid` that the model proves always holds.
- DynamicJson.DecodeEncode and DynamicJson.EncodeDecode: they call `UnmarshalJSON` and `MarshalJSON` directly. What `json.Unmarshal` and `json.Marshal` add around them is not modelled: rejecting empty or invalid input before `UnmarshalJSON` runs, and compacting and HTML-escaping what `MarshalJSON` returns.
- DynamicJson.JSON.FromValue: the panic of `MustToJSONBytes` on a value it cannot encode is not modelled; the encoder is total.
- Dispatch.Call: the response container is a class holding a value of the response type. Decoding into it is a parameter that yields the container's new value, possibly partly filled, together with an error.
- Compiling the translated glob and matching it against URLs is not modelled. The model states the text of the expression.
- Strings are sequences of code points. Invalid UTF-8 is not modelled.

## Findings

| source | as written | input that shows it | evidently intended | confidence | as-written member | corrected member |
|---|---|---|---|---|---|---|
| lib/proto/utils.go:197-198 | each match of `([^\\])\*` or `([^\\])\?` consumes the character before the operator, so an operator directly after an expanded one is never matched and stays as it is | `??` gives `\A.?\z`, which matches zero or one character; `**` gives `\A.**\z`, which Go's regular-expression syntax rejects as a nested repetition | every `*` or `?` not directly after a backslash expands: `??` gives `\A..\z` and `**` gives `\A.*.*\z` | high; not executed | Pattern.DoubleQuestionExample | Pattern.IntendedDoubleQuestion |
