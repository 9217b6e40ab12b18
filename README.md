# Telemetry line pipeline of the WebSerial IMU visualizer

The visualizer reads newline-delimited telemetry from a serial-attached
orientation sensor. Each line holds whitespace-separated numbers. The page
turns each line into an orientation vector that drives a 3D cube. This
project models the sequential part of that pipeline and proves properties of
the model:

- **`LineBreakTransformer`** (module `LineFraming`) is the stream transformer
  between the text decoder and the reader.
  - It keeps the unfinished tail of the text in its `container` field.
  - `transform` appends a chunk, splits on `'\n'`, keeps the last fragment
    and passes every other fragment to `controller.enqueue` and to `logData`.
  - `flush` enqueues whatever is left.
  - `TransformAll` calls `transform` on each chunk of a stream in turn.
  - The class has one `seq<string>` field per sink (`enqueued`, `logged`).
    The ghost field `received` holds all text given to it so far.
- **`readLoop`** (`Telemetry.PageState.ReadLoop`) takes the values the reader
  returns. For each one:
  - a non-empty line replaces the orientation with
    `value.trim().split(" ").map(x => +x)`;
  - an empty string or `undefined` is falsy and changes nothing;
  - a result that reports `done` ends the loop.
- **`calibrate`** (`Telemetry.PageState.Calibrate`, quaternion page only)
  copies components 0 to 3 of the orientation into `wZ, xZ, yZ, zZ`.
- The JavaScript string operations these use, `split` on one character and
  `trim`, are modelled over `string` in module `Strings`.
- Module `Pipeline` puts the pieces together for an example stream of two
  chunks, `"0.1 0.2 "` and `"0.3\n0.4 0.5 0.6\n"`.

Both pages, `docs/js/script.js` and `docs/v2/js/script.js`, hold the same
transformer and the same read loop, so each is modelled once. The table
cites one page or the other. On the first page the orientation global is
called `orientation` and there is no `calibrate`. On the second it is called
`orientationQ`.

Numbers are symbolic. `Num` is one of:

- `Const(n)`: a literal of the script;
- `Plus(t)`: whatever JavaScript's `+t` makes of token `t`, possibly NaN;
- `Undefined`: what an array index past the end yields.

Nothing about number conversion is assumed, so every property holds for
any conversion.

Behaviours of the script that are easy to misread:

- **Splitting.** A line is split on single spaces after `trim`, not on runs
  of whitespace. Two spaces in a row give an empty token. A line of only
  whitespace gives the single token `""`.
- **Log sink.** The line passed on by `flush` goes to the controller only,
  not to the log.
- **Default reference.** It is `wZ = 0, xZ = 0, yZ = 0, zZ = 1`. THREE's
  `Quaternion` takes its components in `(x, y, z, w)` order, so this
  reference is `(0, 0, 1, 0)`, a half turn about z. It is not the identity
  (`DefaultReferenceIsNotIdentity`).
- **Calibrating early.** The initial orientation `[0, 0, 0]` has three
  components. Calling `calibrate` before a four-number line has arrived
  therefore sets `zZ` to `undefined` (`CalibrateBeforeFirstLine`). This is
  modelled as the value `Undefined`, not as a precondition, because the
  script does not fail there. THREE's `Quaternion` constructor replaces an
  `undefined` argument by its default (0 for x, y and z, 1 for w), so both
  `rawQ` and `refQ` are then the zero quaternion `(0, 0, 0, 0)`.

## Model

| member | source | states |
|---|---|---|
| `Strings.Split` | docs/v2/js/script.js:182 | `split('\n')` always yields at least one piece, and no piece contains the separator |
| `Strings.JoinSplit` | docs/v2/js/script.js:182-183 | joining the pieces of a split with the separator gives back the original text: nothing is lost, duplicated or reordered |
| `Strings.SplitTerminated` | docs/js/script.js:205-206 | splitting separator-free pieces, each followed by the separator, plus a separator-free tail gives exactly those pieces and that tail |
| `Strings.SplitJoin` | docs/v2/js/script.js:97 | `split(" ")` of a join of space-free tokens gives back the tokens |
| `Strings.SplitCount` | docs/js/script.js:205 | a split yields exactly one more piece than the number of separators in the text |
| `Strings.LeadingSpaces` | docs/v2/js/script.js:97 | the number of characters the start of `trim` removes: all of them are whitespace, and the character after them, if any, is not |
| `Strings.TrailingSpaces` | docs/js/script.js:110 | the number of characters the end of `trim` removes: all of them are whitespace, and the character before them, if any, is not |
| `Strings.LeadingAfterSpace` | docs/v2/js/script.js:97 | whitespace put in front of a text is all removed by the start of `trim`, together with the text's own leading whitespace |
| `Strings.TrailingBeforeSpace` | docs/js/script.js:110 | whitespace put behind a text is all removed by the end of `trim`, together with the text's own trailing whitespace |
| `Strings.Trim` | docs/v2/js/script.js:97 | `value.trim()` is a contiguous middle of the value that neither starts nor ends with whitespace; everything before and after it is whitespace |
| `Strings.TrimPadded` | docs/js/script.js:110 | whitespace, then a text that neither starts nor ends with whitespace, then whitespace, trims to exactly that text |
| `Strings.TrimIdempotent` | docs/v2/js/script.js:97 | trimming a trimmed line changes nothing |
| `LineFraming.Frame` | docs/v2/js/script.js:181-183 | the popped last fragment (the new container) and every emitted line are free of `'\n'`; the emitted lines, each followed by `'\n'`, then the container, rebuild `old container + chunk` exactly |
| `LineFraming.LinesPerNewline` | docs/v2/js/script.js:182-187 | one `transform` emits exactly as many lines as there are `'\n'` in `old container + chunk` |
| `LineFraming.FrameOfTerminated` | docs/js/script.js:204-206 | the framing is unique: newline-free lines, each with its `'\n'`, followed by a newline-free rest frame into exactly those lines and that rest |
| `LineFraming.RestAfterLastNewline` | docs/v2/js/script.js:180-183 | the new container is the text after the last `'\n'` of the buffer, preceded by that `'\n'` when shorter than the buffer; a buffer without `'\n'` emits nothing and is kept whole |
| `LineFraming.ChunkBoundaryIndependence` | docs/js/script.js:203-211 | feeding chunks one `transform` at a time emits the same lines and leaves the same container as feeding their concatenation in one call |
| `LineFraming.FrameTwice` | docs/v2/js/script.js:180-188 | two `transform` calls in a row emit, in order, the lines that one call on both chunks together would emit, and leave the same container |
| `LineFraming.ReceivedAfterFrame` | docs/v2/js/script.js:180-188 | after one more `transform`, the logged lines with their `'\n'`, then the new container, still spell out all text received |
| `LineFraming.FrameIsSplit` | docs/v2/js/script.js:182-183 | the emitted lines followed by the new container are exactly the buffer split on `'\n'` |
| `LineFraming.FeedChunks` | docs/js/script.js:203-211 | repeated `transform` calls: the starting container followed by all chunks is rebuilt exactly by the emitted lines, each with its `'\n'`, followed by the final container |
| `LineFraming.RebuildAfterFrame` | docs/v2/js/script.js:180-188 | the lines of one `transform` call, followed by whatever rebuilds the rest of the text, rebuild the whole text |
| `LineFraming.FrameAppend` | docs/v2/js/script.js:180-188 | framing a text with a chunk appended emits the earlier lines, then the lines of the old rest followed by the chunk |
| `LineFraming.StreamIsSplitIntoLines` | docs/js/script.js:203-215 | over a whole stream, the lines from `transform` followed by the container from `flush` are exactly the stream split on `'\n'`, including the unterminated last fragment |
| `LineFraming.LineBreakTransformer.constructor` | docs/v2/js/script.js:175-178 | a new transformer has an empty container, has emitted nothing and satisfies the invariant |
| `LineFraming.LineBreakTransformer.Transform` | docs/v2/js/script.js:180-188 | keeps the invariant (the container and every logged line are free of `'\n'`; the logged lines with their `'\n'`, then the container, are all text received); the container becomes the rest of `old container + chunk`; its lines go to the controller and to the log, in order, each once |
| `LineFraming.LineBreakTransformer.TransformAll` | docs/v2/js/script.js:180-188 | `transform` on each chunk in turn keeps the invariant and leaves the transformer exactly as one `transform` on all the chunks together would: same container, same lines enqueued and logged, in order |
| `LineFraming.LineBreakTransformer.Flush` | docs/v2/js/script.js:190-192 | enqueues the container exactly once, even when it is empty; the log and the container are unchanged |
| `Telemetry.Tokens` | docs/v2/js/script.js:97 | `value.trim().split(" ")` gives at least one token; no token holds a space; the tokens joined by single spaces are the trimmed line |
| `Telemetry.TokensOfPaddedLine` | docs/js/script.js:110 | a line of whitespace-free numbers separated by single spaces, with any whitespace around it (such as a trailing `'\r'`), tokenises to exactly those numbers |
| `Telemetry.Truthy` | docs/v2/js/script.js:95 | `if (value)` passes exactly the defined, non-empty strings |
| `Telemetry.Numbers` | docs/v2/js/script.js:97 | `.map(x=>+x)` gives one component per token, in order, component `i` being `+` of token `i` |
| `Telemetry.Parse` | docs/v2/js/script.js:97 | a line sets one component per token of `trim().split(" ")`, in order, and always at least one |
| `Telemetry.ComponentCount` | docs/v2/js/script.js:97 | a line sets one component more than its trimmed text holds spaces |
| `Telemetry.Step` | docs/v2/js/script.js:94-98 | one pass of the loop: a truthy value sets the orientation to its line's numbers, whatever it was before; a falsy one leaves it unchanged |
| `Telemetry.Replay` | docs/v2/js/script.js:93-98 | the orientation after the loop has passed over the reads in order; reads that carry no value, or only empty strings, leave it unchanged |
| `Telemetry.ReplaySnoc` | docs/v2/js/script.js:93-98 | the orientation after one more read is that read's update applied to the orientation after the earlier reads |
| `Telemetry.ReplayPrefix` | docs/v2/js/script.js:93-98 | the orientation after the first `i + 1` reads is read `i`'s update applied to the orientation after the first `i` |
| `Telemetry.LastLineWins` | docs/js/script.js:105-118 | after the loop, the orientation holds the numbers of the last read that carried a non-empty line, whatever came before it |
| `Telemetry.FirstDone` | docs/v2/js/script.js:99-103 | the loop takes every result up to and including the first that reports `done`, or all of them if none does |
| `Telemetry.FirstDoneUnique` | docs/v2/js/script.js:99-103 | the number of results the loop takes is determined: any count that stops at the first `done`, or takes everything when none reports it, is that number |
| `Telemetry.At` | docs/v2/js/script.js:251-254 | `orientationQ[i]` is component `i` when there is one and `undefined` past the end |
| `Telemetry.ThreeOrder` | docs/v2/js/script.js:305-306 | the arguments of THREE's `Quaternion(x, y, z, w)` take the real part `w` last, after `x`, `y` and `z` |
| `Telemetry.OrDefault` | docs/v2/js/script.js:305-306 | an argument THREE's constructor receives as `undefined` becomes its default; any other value, a NaN included, is kept; the result is never `undefined` |
| `Telemetry.NewQuaternion` | docs/v2/js/script.js:305-306 | the quaternion the constructor builds has no `undefined` component: a missing x, y or z is 0, a missing w is 1, and an argument list without `undefined` is kept as it is |
| `Telemetry.RawQuaternion` | docs/v2/js/script.js:305 | `rawQ` holds orientation components 1, 2 and 3 as x, y and z and component 0 as w, a missing one replaced by THREE's default; with four components present it is just their reordering |
| `Telemetry.DefaultReferenceIsNotIdentity` | docs/v2/js/script.js:243-246 | the default reference `(w 0, x 0, y 0, z 1)`, put in THREE's `(x, y, z, w)` order, is `(0, 0, 1, 0)`, not the identity `(0, 0, 0, 1)` |
| `Telemetry.CalibrateBeforeFirstLine` | docs/v2/js/script.js:9 | the initial orientation `[0, 0, 0]` has no component 3, so calibrating before a four-number line arrives captures `undefined` as `zZ`, and `rawQ` is the zero quaternion `(0, 0, 0, 0)` |
| `Telemetry.PageState.constructor` | docs/v2/js/script.js:9 | the orientation starts as `[0, 0, 0]`, and the reference as `wZ = 0, xZ = 0, yZ = 0, zZ = 1` (the defaults at lines 243-246) |
| `Telemetry.PageState.ReadLoop` | docs/v2/js/script.js:92-105 | consumes exactly the results up to the first `done`; the orientation becomes the replay of those results from the old orientation; the reference is unchanged |
| `Telemetry.PageState.Receive` | docs/v2/js/script.js:94-98 | one pass of the loop: a truthy value replaces the orientation with the numbers of its line, a falsy one leaves it; the reference is unchanged |
| `Telemetry.PageState.Calibrate` | docs/v2/js/script.js:249-254 | sets `wZ, xZ, yZ, zZ` to orientation components 0 to 3, in that order (`undefined` past the end), so the quaternion THREE builds as `refQ` equals the `rawQ` it builds from the current sample; the orientation is unchanged |
| `Pipeline.TwoChunkFraming` | docs/js/script.js:203-211 | two chunks whose text is two newline-terminated lines emit those two lines and leave an empty container, wherever the text is divided |
| `Pipeline.ExampleFraming` | docs/v2/js/script.js:180-188 | the chunks `"0.1 0.2 "` and `"0.3\n0.4 0.5 0.6\n"` emit `"0.1 0.2 0.3"` then `"0.4 0.5 0.6"` |
| `Pipeline.ThreeNumbers` | docs/v2/js/script.js:97 | a line of three numerals (digits and points) separated by single spaces sets the orientation to `+` of each, in order |
| `Pipeline.FirstSample` | docs/v2/js/script.js:97 | the line `"0.1 0.2 0.3"` sets the orientation to `+"0.1"`, `+"0.2"`, `+"0.3"` |
| `Pipeline.ExampleSample` | docs/v2/js/script.js:97 | the line `"0.4 0.5 0.6"` sets the orientation to `+"0.4"`, `+"0.5"`, `+"0.6"` |
| `Pipeline.ReadTwoLines` | docs/js/script.js:105-111 | two non-empty lines read in turn: after the first, the orientation holds its numbers; after the second, those of the second |
| `Pipeline.ExampleReading` | docs/js/script.js:105-111 | reading the two lines the transformer emits for those chunks gives the orientation `+"0.1"`, `+"0.2"`, `+"0.3"` after the first and `+"0.4"`, `+"0.5"`, `+"0.6"` after the second |

## Left out

- `connect`, `disconnect` and `clickConnect` are left out. They are Web
  Serial port handling, stream piping, asynchronous cancellation and UI
  toggling. This includes the error path where `readLoop().catch(...)`
  disconnects.
- Decoding bytes to text (`TextDecoderStream`) is left out. The model starts
  from decoded text chunks.
- The rule that a TransformStream never calls `transform` after `flush` is
  not modelled. It belongs to the streams runtime, not the script.
- `PageState.ReadLoop` is given the reader's results as a finite sequence.
  Running out of results without `done` stands for the loop waiting on the
  next `await reader.read()`. `reader.releaseLock()` and `console.log` are
  not modelled.
- `logData` is modelled only as a sink that receives lines (the `logged`
  field). Its HTML rewriting, truncation to 500 lines and autoscroll depend
  on DOM `innerHTML`/`textContent` semantics.
- The `animate` loop and all quaternion arithmetic are left out. This covers
  inversion, multiplication, normalisation and Euler conversion, plus the
  unused `swap*AxesInQuaternion`, `invertXAxisInQuaternion` and
  `calibrateQuaternion` helpers. They are floating-point numerics inside the
  THREE library. Only how the components are ordered into THREE quaternions
  is modelled.
- `render`/`updateCube` on the first page are left out. They format float
  offsets into CSS strings written to the DOM.
- `controls.reset()` in `calibrate` is left out. It resets the orbit camera
  in the THREE scene.
- The settings helpers (`loadSetting`, `saveSetting`, `loadAllSettings`,
  `initBaudRate`) and `convertJSON` are left out. They are thin wrappers
  over localStorage, JSON and the DOM.
- `Telemetry.OrDefault` follows default parameters, which replace only
  `undefined`. THREE builds that write `x || 0` would also turn a NaN
  component into 0. The THREE build the pages load is not part of this
  model.
- The numeric meaning of `+x` is left out. String-to-float conversion and
  NaN are kept uninterpreted as `Plus(token)`.
- The THREE scene setup and the stylesheet toggling are left out.
