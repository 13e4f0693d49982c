# varibeat core in Dafny

Varibeat is a rhythm game prototype written in C++ over SDL, bgfx and PhysFS. This project
models its core and proves properties of that model. The core has seven parts:

- **Note field** (`notefield.dfy`, module `Notefield`). A chart of note rows scrolls past a judging
  window of ±200 ms around the song clock. The window bounds are computed in 32-bit unsigned
  arithmetic, so they wrap. Rows that enter the window become judge candidates. A candidate is
  admitted only if its timestamp is strictly later than the newest candidate already held. A
  SPACE press records `int16(row.ms - now)` on every candidate that has not been hit yet.
  Candidates older than the window are moved, unchanged and in order, to the judge log. The
  class `Field` holds the fields and updates them in place. Its methods are proved against the
  functions `Updated` and `Pressed`, and the lemmas about those functions state the promised
  properties: the deque stays ascending, expiry is FIFO, only lanes 1..4 are drawn, and drawing
  never affects judging (`Notefield.DrawingNeverJudges`).
- **Fixed-step loop** (`fixed_step.dfy`, module `FixedStep`). This is the main loop of
  `src/main.cpp`:
  - each frame adds the capped frame time to a `real` lag accumulator;
  - the lag is spent in ticks of 1/60 s, at most three per frame, and the state is copied before
    each tick;
  - the interpolation factor is what remains of the lag, in [0, 1);
  - F5 toggles the HMD reset flag when an HMD is present, and QUIT or releasing Escape requests
    a quit that the next tick honours.
- **Event routing** (`game.dfy`, module `Game`). This is the main loop of `src/vbeat.cpp`:
  - KEYDOWN queues an input event and, because the case has no `break`, falls through into the
    KEYUP checks, so Escape quits and the keys 1 and 2 toggle the debug flags on press and on
    release;
  - the queued events are delivered in stack (LIFO) order to the focused widget of the top
    screen;
  - every widget of that screen is then updated in order.
- **Sprite batch** (`sprite_batch.dfy`, module `SpriteBatch`). Vertices are appended and
  indices are rebased onto them as `uint16_t`. The batch keeps a dirty flag, the uploaded copies
  and the texture's reference count.
- **xorshift128+** (`xorshift.dfy`, module `Xorshift`). The 64-bit state transition and its raw
  output, over the global two-word state array.
- **Bitmap font** (`font_parse.dfy`, module `FontParse`; `bitmap_font.dfy`, module
  `BitmapFont`). The loader reads the AngelCode BMFont text format, and the model keeps the C++
  stream rules that shape what it reads. The module also covers the kerning lookup, the string
  width, and the pen, line and index bookkeeping of `set_text`.
- **File system glue** (`vfs.dfy`, module `Vfs`). It covers:
  - the position `seek` asks PhysFS for;
  - the open-handle counter kept by the file reader;
  - the assets directory derived from `argv[0]`;
  - the buffer `read_string` fills.

`ints.dfy` (module `Ints`) defines the fixed-width integer types and their explicit wrap-around,
narrowing and clamping. `sdl.dfy` (module `Sdl`) lists the SDL events and keycodes and the bgfx
flag bits used. `wrappers.dfy` defines `Option`.

Everything the foreign libraries decide is a parameter of the model. That covers whether a file
exists or opens, its length, position and bytes, whether a PNG decodes, the clock, whether an HMD
is present, and the polled events.

Chart rows that share a timestamp are not both judged. The admission test in
`src/widgets/notefield.hpp:200-201` compares a row's timestamp with the newest candidate's using a
strict `<`, so the second of two tied rows is never admitted. `Notefield.ScenarioTie` states this
for a two-row chart.

The font loader's `read_string` leaves a terminating `'\0'` in the string it returns, and
`parse_font` parses that string as it is. `BitmapFont.Font.Load` therefore takes the file's
contents with that terminator included.

## Model

| member | source | states |
|---|---|---|
| Notefield.ExpireCount | src/widgets/notefield.hpp:187-189 | the number of candidates expiry pops is at most the deque's length, and the first candidate left behind is not older than `earliest` |
| Notefield.ExpiredAreOlder | src/widgets/notefield.hpp:187-189 | every candidate expiry pops is older than `earliest`; with `ExpireCount`, the popped candidates are exactly the front run of candidates older than `earliest` |
| Notefield.AscendingPairwise | src/widgets/notefield.hpp:199-205 | the neighbour-wise admission order is equivalent to every earlier candidate having a strictly smaller timestamp than every later one (both directions) |
| Notefield.AscendingDistinct | src/widgets/notefield.hpp:199-205 | in an ascending deque no chart row appears twice |
| Notefield.AscendingSuffix | src/widgets/notefield.hpp:187-196 | popping candidates off the front keeps the deque ascending |
| Notefield.AscendingPush | src/widgets/notefield.hpp:200-204 | pushing a row later than the back keeps the deque ascending |
| Notefield.RowStepKeepsAscending | src/widgets/notefield.hpp:182-206 | visiting one chart row (expiry, then admission) keeps the deque strictly ascending by timestamp |
| Notefield.SweepKeepsAscending | src/widgets/notefield.hpp:182-206 | after the loop over any number of chart rows the deque is strictly ascending by timestamp |
| Notefield.SweepKeepsRefers | src/widgets/notefield.hpp:182-206 | every candidate and every logged entry refers to a row of the chart, before and after the loop |
| Notefield.RowStepWithoutExpiry | src/widgets/notefield.hpp:187-206 | when the front is inside the window, a row visit leaves the log alone and pushes the row exactly when it is admissible |
| Notefield.SweepShape | src/widgets/notefield.hpp:182-206 | an update moves the expired front of the old deque to the end of the log, in order and unchanged; the rest of the old deque stays at the front, unchanged; every entry behind it is an unjudged candidate from the chart whose timestamp is inside the window |
| Notefield.SweepExpiresOlder | src/widgets/notefield.hpp:187-196 | the front an update moves to the log is exactly the run of old candidates older than the window: each of them is, and the first candidate kept is not |
| Notefield.WindowBoundsWrap | src/widgets/notefield.hpp:183-184 | the window bounds are `now - 200` and `now + 200` taken modulo 2^32 |
| Notefield.EarlyWindowWraps | src/widgets/notefield.hpp:183-199 | in the first 200 ms the lower bound wraps to `2^32 + now - 200`, so no row earlier than `2^32 - 200` ms is inside the window |
| Notefield.LaneSpritesMembers | src/widgets/notefield.hpp:214-221 | a visited row is drawn in exactly the lanes `1 <= i < 5` whose bit `i` is set |
| Notefield.LaneSpritesIgnoreOtherBits | src/widgets/notefield.hpp:214-215 | bits 0, 5, 6 and 7 of a row's columns (the hold bits included) never make a sprite |
| Notefield.DrawnMembers | src/widgets/notefield.hpp:208-221 | a sprite is drawn exactly for each lane 1..4 that is set on a chart row whose timestamp is not yet past (both directions) |
| Notefield.DrawingNeverJudges | src/widgets/notefield.hpp:168-225 | the sprites held before an update or a press change nothing about the deque, log or clock afterwards; the deque and log an update leaves are those of the window loop alone |
| Notefield.UpdateKeepsConsistent | src/widgets/notefield.hpp:168-225 | an update advances the clock by exactly `dt`, leaves the chart as it was, and keeps the deque ascending and all entries pointing into the chart |
| Notefield.PressJudgesPending | src/widgets/notefield.hpp:151-165 | SPACE writes `int16(row.ms - now)` on every candidate still at `INT16_MIN`, leaves judged candidates, the log, the clock and the deque's length as they were |
| Notefield.OtherKeysIgnored | src/widgets/notefield.hpp:151 | any key but SPACE changes nothing |
| Notefield.PressKeepsConsistent | src/widgets/notefield.hpp:149-166 | input keeps the deque ascending and all entries pointing into the chart |
| Notefield.PressIdempotent | src/widgets/notefield.hpp:157-160 | a second press at the same time changes nothing more: judged candidates are skipped |
| Notefield.PressOffsetExact | src/widgets/notefield.hpp:161-162 | for a row within 200 ms the recorded offset is exactly `row.ms - now`, untruncated, and never reads as unjudged |
| Notefield.ScenarioHit | src/widgets/notefield.hpp:168-206 | a note at 1000 ms is a candidate at 980 ms and a SPACE press then records +20 ms |
| Notefield.ScenarioMiss | src/widgets/notefield.hpp:187-196 | a candidate never hit is logged as a miss once the clock passes its row by more than 200 ms |
| Notefield.ScenarioTie | src/widgets/notefield.hpp:200-201 | of two rows sharing a timestamp only the first becomes a candidate |
| Notefield.Field.constructor | src/widgets/notefield.hpp:130-139 | a field over a chart with an empty deque, log and sprite list and the given clock |
| Notefield.Field.ExpireOld | src/widgets/notefield.hpp:187-196 | the loop pops the front run of candidates older than `earliest`, in order, onto the end of the log: every popped one is older, and the first one kept is not |
| Notefield.Field.VisitRow | src/widgets/notefield.hpp:182-221 | one iteration of the row loop: the deque and log become those of `RowStep` (expiry, then admission), then the row's sprites are drawn unless its timestamp is past |
| Notefield.Field.DrawLanes | src/widgets/notefield.hpp:214-221 | the lane loop appends the sprites of the row's set lanes 1..4, in lane order |
| Notefield.Field.VisitAll | src/widgets/notefield.hpp:182-222 | the row loop leaves the deque and log the sweep over all rows gives and draws exactly the rows not yet past |
| Notefield.Field.Update | src/widgets/notefield.hpp:168-225 | `update(dt)` takes the field to `Updated(old state, dt)` and keeps it consistent |
| Notefield.Field.Input | src/widgets/notefield.hpp:149-166 | `input(e)` takes the field to `Pressed(old state, key)` and keeps it consistent |
| FixedStep.MaxDeltaIsThreeSteps | src/main.cpp:295-296 | `max_delta = 1 / (60 / 3)` is exactly three time steps of 1/60 s |
| FixedStep.Tick | src/main.cpp:170-175 | the update sets `finished` exactly when a quit was requested and changes nothing else |
| FixedStep.InterpolateIsCurrent | src/main.cpp:164-168 | the interpolated state is a copy of the current one, whatever the previous state and the factor |
| FixedStep.TickedShape | src/main.cpp:316-323 | after n ticks the tick counter has grown by exactly n modulo 2^64, `finished` is set exactly when it was or a quit was requested and n > 0, and nothing else changes |
| FixedStep.QuitFinishesAtFirstTick | src/main.cpp:316-323 | a requested quit finishes the game at the first tick |
| FixedStep.ToggledHmdIsXor | src/main.cpp:131-136 | both branches of the reset-flag update amount to XOR with the HMD bit: that bit flips, every other bit stays |
| FixedStep.F5TogglesHmd | src/main.cpp:127-139 | F5 flips the HMD bit when an HMD is present and changes nothing otherwise |
| FixedStep.F5TwiceRestores | src/main.cpp:127-139 | pressing F5 twice restores the reset flags |
| FixedStep.HandledQuit | src/main.cpp:119-161 | after polling, a quit is requested exactly when one was before or some event is QUIT or an Escape release |
| FixedStep.OtherEventsKeepFlags | src/main.cpp:119-161 | every event other than an F5 press leaves the reset flags alone |
| FixedStep.HandledFlags | src/main.cpp:119-161 | after polling, the HMD bit is flipped exactly when an HMD is present and the number of F5 presses is odd |
| FixedStep.Loop.constructor | src/main.cpp:271-293 | zero lag and peak, a default previous state and a 1280x720 current state |
| FixedStep.Loop.HandleEvent | src/main.cpp:121-160 | one polled event changes the quit request and the reset flags as `OnEvent` says and nothing else |
| FixedStep.Loop.HandleEvents | src/main.cpp:119-161 | the poll loop applies the events in order: the quit request and reset flags become those of `Handled`, the rest of the state is untouched |
| FixedStep.Loop.Advance | src/main.cpp:313-329 | the frame adds exactly `min(delta, max_delta)` to the lag; it runs at most three ticks, each incrementing the tick counter and copying the state first; the lag left is the total minus the ticks taken and below one step; `peak` never decreases and becomes the largest post-subtraction lag; when lag and delta start non-negative, alpha is in [0, 1) |
| FixedStep.TicksIn | src/main.cpp:313-323 | the ticks a frame runs are the whole steps in its lag, none under one step and at most three |
| FixedStep.TicksInIsUnique | src/main.cpp:313-323 | any tick count within those bounds is the one `TicksIn` gives |
| FixedStep.FrameShape | src/main.cpp:298-329 | one frame leaves less than a step of lag, none owed when lag and delta are non-negative; it flips the HMD bit iff an HMD is present and F5 was pressed an odd number of times; it finishes the game iff it was finished, or a quit was requested and some tick ran; the counter grows by the ticks run modulo 2^64 and the size is kept |
| FixedStep.FinishedStays | src/main.cpp:170-175 | once the game has finished, no later frame unfinishes it |
| FixedStep.FramesKeepLag | src/main.cpp:313-323 | every sequence of frames leaves less than a step of lag |
| FixedStep.Loop.Step | src/main.cpp:299-329 | one pass of the loop body (events, then the lag and ticks) takes the loop's state to `Frame` of the old state and the frame's input |
| FixedStep.Loop.Run | src/main.cpp:298-334 | after n frames the loop's state is `Frames` of the old state and the first n inputs; it stopped early only because the game finished, and every frame it ran started with the game unfinished |
| Game.DebugToggledTwice | src/vbeat.cpp:139-146 | toggling the debug flags twice with the same key restores them |
| Game.OtherKeysKeepDebug | src/vbeat.cpp:139-146 | keys other than 1 and 2 do not touch the debug flags |
| Game.KeyDownFallsThrough | src/vbeat.cpp:130-148 | a key press queues its key and also runs the release checks, so pressing Escape requests a quit; a release queues nothing |
| Game.PressReleaseRestoresDebug | src/vbeat.cpp:130-146 | a full press and release of any key leaves the debug flags as they were and queues that key once |
| Game.PolledQuit | src/vbeat.cpp:124-163 | after polling, a quit is requested exactly when one was before or some event is QUIT, an Escape press or an Escape release |
| Game.PolledEvents | src/vbeat.cpp:130-134 | polling queues exactly the keys of the key presses, in order, behind those already queued |
| Game.ReversedIndex | src/vbeat.cpp:165-168 | the drain order is the queue reversed: the k-th delivered event is the k-th from the top |
| Game.PressAll | src/vbeat.cpp:165-168 | delivering any sequence of keys to a note field changes only its candidates |
| Game.PressAllIsOnePress | src/vbeat.cpp:165-168 | delivering a batch of keys to a note field in one frame acts as a single SPACE press if SPACE is among them, else as nothing |
| Game.Screen.Input | src/vbeat.cpp:70-72 | an input event goes to the focused widget only |
| Game.Screen.Update | src/vbeat.cpp:74-78 | every note field of the screen is updated by exactly `dt`, once each |
| Game.App.constructor | src/vbeat.cpp:188-215 | 1280x720, nothing queued, one screen whose widgets are a fresh note field over the default chart (focused) and the font test |
| Game.App.Poll | src/vbeat.cpp:125-162 | one polled event changes the quit request, the debug flags and the queue as `OnEvent` says |
| Game.App.KeyUpChecks | src/vbeat.cpp:135-148 | the release checks: Escape requests a quit, 1 and 2 toggle their debug bits |
| Game.App.Drain | src/vbeat.cpp:165-168 | the queue ends empty and the focused note field has received the queued keys top first |
| Game.App.HandleEvents | src/vbeat.cpp:122-169 | the quit request and debug flags become those of polling the events in order; the queue ends empty; the focused note field received the pressed keys in LIFO order and its clock did not move |
| Game.App.HandleEventsOnTop | src/vbeat.cpp:122-169 | after `handle_events` the focused note field of the top screen has received the queued keys newest first, every other note field of that screen kept its state, and all of them can still run `dt` more milliseconds |
| Game.App.HandleAndCheck | src/vbeat.cpp:226-230 | `handle_events` followed by the quit check: `finished` is set exactly when it was or a quit has been requested, and the note fields are as `HandleEventsOnTop` leaves them |
| Game.App.Iterate | src/vbeat.cpp:225-244 | one loop iteration sets `finished` in the same iteration a quit is requested. Every note field of the top screen ends consistent, in `Updated(S, dt)`: for the focused one, S is its old state after the queued keys, newest first; for the others, S is the old state. The screens, the size and the tick counter are untouched |
| SpriteBatch.RebasedIndex | src/sprite_batch.cpp:39-41 | each appended index is `(base + i) mod 2^16` |
| SpriteBatch.RebasedAppend | src/sprite_batch.cpp:39-41 | rebasing distributes over concatenation |
| SpriteBatch.AppendKeepsInRange | src/sprite_batch.cpp:29-41 | below 2^16 vertices no index wraps, and the new indices name exactly the new vertices |
| SpriteBatch.Batch.constructor | src/sprite_batch.cpp:6-10 | a new batch is dirty and empty and holds one more reference on its texture |
| SpriteBatch.Batch.Destroy | src/sprite_batch.cpp:22-23 | the destructor drops one reference on the texture |
| SpriteBatch.Batch.Add | src/sprite_batch.cpp:28-43 | the existing vertices and indices are kept, the new vertices are appended verbatim, the new indices are rebased past the old vertex count, and the batch is dirty |
| SpriteBatch.Batch.Buffer | src/sprite_batch.cpp:45-65 | a clean batch is left as it is; a dirty one uploads both buffers; afterwards it is clean |
| SpriteBatch.Batch.Clear | src/sprite_batch.cpp:67-71 | both buffers become empty and the batch is dirty |
| Xorshift.Next | src/math.cpp:21-25 | the new first word is the old second word |
| Xorshift.ZeroIsFixed | src/math.cpp:9-26 | the all-zero state steps to itself and outputs 0 |
| Xorshift.OnlyZeroReachesZero | src/math.cpp:21-25 | a state steps to zero exactly when it is zero |
| Xorshift.NeverZero | src/math.cpp:9-26 | a state seeded away from zero stays away from zero for any number of draws |
| Xorshift.InitialNeverZero | src/math.cpp:10-13 | the static initial state never reaches zero |
| Xorshift.Generator.constructor | src/math.cpp:10-13 | the state starts at `{0xCBBF7A44, 0x0139408D}` |
| Xorshift.Generator.Seed | src/math.cpp:15-18 | `seed(hi, low)` sets the state to exactly `{hi, low}` |
| Xorshift.Generator.Random | src/math.cpp:20-26 | a draw steps the state by `Next` and returns `(new s[1] + old s[1]) mod 2^64`; the output depends on the state alone, so equal seeds give equal sequences |
| FontParse.Find | src/bitmap_font.cpp:72 | `find('=')` gives the first occurrence, or none |
| FontParse.FindLast | src/bitmap_font.cpp:99 | `find_last_of('"')` gives the last occurrence, or none |
| FontParse.LinesJoin | src/bitmap_font.cpp:62-65 | the `getline` loop cuts the data into newline-free lines that join back to it |
| FontParse.JoinLines | src/bitmap_font.cpp:62-65 | newline-free lines joined with '\n' are read back as exactly those lines |
| FontParse.WordsOfSpaced | src/bitmap_font.cpp:67-71 | words joined by single spaces are read back as exactly those words |
| FontParse.ScanLine | src/bitmap_font.cpp:67-71 | a line's name is its first word; a blank line keeps the last name read and has no items |
| FontParse.ScanSpaced | src/bitmap_font.cpp:62-71 | a line of words joined by single spaces is read as its first word and then each later word once |
| FontParse.ScanSpacedBlank | src/bitmap_font.cpp:69-71 | one blank after the last word makes the item loop read that last word a second time |
| FontParse.WordsTrailingBlank | src/bitmap_font.cpp:67-71 | trailing whitespace adds no word |
| FontParse.KeyValue | src/bitmap_font.cpp:72-74 | `key=value` splits into `key` and `value` at the first '=' |
| FontParse.NoEquals | src/bitmap_font.cpp:72-74 | a word without '=' is both its own key and its own value |
| FontParse.ExtractEmptyKeeps | src/bitmap_font.cpp:76-82 | `>> int` on an empty value extracts nothing and leaves the field as it was |
| FontParse.ExtractSaturates | src/bitmap_font.cpp:76-82 | a run of digits beyond the `int` range stores `INT_MAX`, or `INT_MIN` after a '-' |
| FontParse.ExtractDecimal | src/bitmap_font.cpp:76-82 | every `int` printed in decimal is read back exactly |
| FontParse.ExtractNonNumeric | src/bitmap_font.cpp:76-82 | a value that does not start with a sign or digit stores 0 |
| FontParse.CharFieldPersists | src/bitmap_font.cpp:106-123 | a field a `char` line does not mention keeps the value the previous `char` line left |
| FontParse.CharItemKeepsField | src/bitmap_font.cpp:113-122 | a `key=value` item changes at most the field it names |
| FontParse.CharIdDefaultsToZero | src/bitmap_font.cpp:104-114 | a `char` line without `id` files its glyph under id 0 |
| FontParse.QuotedPath | src/bitmap_font.cpp:99 | the path of `file="name"` is `name` |
| FontParse.UnquotedPath | src/bitmap_font.cpp:99 | a value without quotes is kept whole |
| FontParse.LineKeepsChars | src/bitmap_font.cpp:125 | no line changes a glyph already filed (`map::insert` does not overwrite) |
| FontParse.CharLineFiles | src/bitmap_font.cpp:103-125 | a `char` line files its glyph under its id unless that id is already taken |
| FontParse.LineAppendsKerning | src/bitmap_font.cpp:140-153 | a `kerning` line appends exactly one record and any other line appends none |
| FontParse.LineAddsPath | src/bitmap_font.cpp:85-101 | only a `page` line adds a texture path, at most one, and never an empty one |
| FontParse.BlankLine | src/bitmap_font.cpp:62-67 | a blank line after a word that names no record changes nothing |
| FontParse.ParseAppend | src/bitmap_font.cpp:62-155 | parsing two runs of lines is parsing the first and continuing with the second |
| FontParse.ParseGrows | src/bitmap_font.cpp:62-155 | parsing only adds: glyphs, kerning records and texture paths already present are kept, in order |
| FontParse.ReadAssignment | src/bitmap_font.cpp:69-82 | an item `key=n` is read back as key `key` and number `n` |
| FontParse.ReadKerning | src/bitmap_font.cpp:140-153 | the items of a printed kerning record are read back as that record |
| FontParse.KerningLineRoundTrip | src/bitmap_font.cpp:140-153 | a printed `kerning first=a second=b amount=c` line appends exactly the record `{a, b, c}` |
| FontParse.ReadPage | src/bitmap_font.cpp:85-98 | the items `id=n file=...` yield that file value |
| FontParse.PageLineRoundTrip | src/bitmap_font.cpp:85-101 | a printed `page id=n file="name"` line appends exactly `name` |
| BitmapFont.PairAmount | src/bitmap_font.cpp:162-167 | the amount of the first matching record, or 0 when none matches |
| BitmapFont.NoCountNoKerning | src/bitmap_font.cpp:160-167 | with `KernCount` 0 every pair has kerning 0 |
| BitmapFont.PastCountIgnored | src/bitmap_font.cpp:162 | records past `KernCount` are never consulted |
| BitmapFont.CharCode | src/bitmap_font.cpp:178-179 | a `char` is a signed byte: ASCII keeps its code, and bytes 128..255 read as the code minus 256 |
| BitmapFont.TouchedLooksTheSame | src/bitmap_font.cpp:179 | `Chars[c]` inserts a zero glyph for an unknown id and returns the same glyph a lookup would |
| BitmapFont.Codes | src/bitmap_font.cpp:178-179 | the ids the text is looked up by, one per character |
| BitmapFont.WidthWithoutKerning | src/bitmap_font.cpp:170-183 | without kerning the width is the sum of the glyphs' advances |
| BitmapFont.SingleCharacter | src/bitmap_font.cpp:176-180 | a one-character string is as wide as its glyph's advance |
| BitmapFont.PenLine | src/bitmap_font.cpp:233-247 | the line of character i is the number of newlines up to it minus one, and a newline puts the pen at x = 0 |
| BitmapFont.PenOnFirstLine | src/bitmap_font.cpp:233-291 | before the first newline the pen sits on line -1 at the string width of the text so far |
| BitmapFont.QuadIndex | src/bitmap_font.cpp:278-284 | the pushed indices for quad i are `4i + {0,2,1,1,2,3}` modulo 2^16 |
| BitmapFont.UploadedShape | src/bitmap_font.cpp:237-284 | the index buffer holds the 6n preallocated zeros followed by the pushed quads |
| BitmapFont.Directory | src/bitmap_font.cpp:197 | the font's directory is the file name up to its last '/', or the whole name without one |
| BitmapFont.Font.constructor | src/bitmap_font.cpp:25-30 | an empty font with no glyphs, kerning or texture and empty text |
| BitmapFont.Font.ParseFont | src/bitmap_font.cpp:50-158 | the font becomes the result of parsing the data's lines in order; it always reports success |
| BitmapFont.Font.ParseLine | src/bitmap_font.cpp:62-155 | one iteration of the line loop takes the parser state to `LineStep` of the old state and the line |
| BitmapFont.Font.ParseCommon | src/bitmap_font.cpp:68-84 | the `common` fields become the fold of the line's items |
| BitmapFont.Font.ParsePage | src/bitmap_font.cpp:85-102 | a `page` line appends its extracted path when it is not empty |
| BitmapFont.Font.ParseChar | src/bitmap_font.cpp:103-127 | the glyph is filed under the line's id only when that id is new; the glyph carries over to the next `char` line |
| BitmapFont.Font.ParseKernings | src/bitmap_font.cpp:128-139 | `count=` sets `KernCount` |
| BitmapFont.Font.ParseKerning | src/bitmap_font.cpp:140-154 | exactly one record is appended, the fold of the items over the last record read |
| BitmapFont.Font.KerningPair | src/bitmap_font.cpp:160-168 | `get_kerning_pair` returns the amount of the first matching record among the first `KernCount` |
| BitmapFont.Font.StringWidth | src/bitmap_font.cpp:170-183 | the width of the text (the current text when empty) is its advances plus each `char`'s kerning with the next; every looked-up id is now in the glyph map |
| BitmapFont.Font.MeasureAll | src/bitmap_font.cpp:174-182 | the character loop of `get_string_width`: the total is `Width` of the string over the font as it was, and every id looked up is filed |
| BitmapFont.Font.Kerned | src/bitmap_font.cpp:177-178 | the kerning added after character i |
| BitmapFont.Font.Place | src/bitmap_font.cpp:241-291 | one iteration of the layout loop: the quad at the pen position and the pen after it |
| BitmapFont.Font.Lookup | src/bitmap_font.cpp:241 | `Chars[c]` yields the glyph and inserts a zero glyph for an unknown id |
| BitmapFont.Font.Load | src/bitmap_font.cpp:185-217 | a missing file fails and changes nothing; otherwise the font is parsed, `KernCount` is set to the number of records, and the first texture path is prefixed with the font's directory and decoded, or `load` fails when it does not decode |
| BitmapFont.Font.SetText | src/bitmap_font.cpp:219-296 | the text is stored; empty text only sets `empty` and leaves the buffers; otherwise the uploaded quads and indices are the layout of the text |
| BitmapFont.Font.LayOut | src/bitmap_font.cpp:233-292 | the layout loop yields the quad sequence `Layout` and the index buffer of 6n zeros plus the pushed quads |
| BitmapFont.Font.LayOutNext | src/bitmap_font.cpp:241-291 | one pass of the layout loop: character i is placed at the pen, its quad's six indices are pushed, and the pen moves past it |
| Vfs.SeekPosition | src/fs.cpp:27-40 | the position is `offset` for Begin, `tell + offset` for Current and `length + offset` for End |
| Vfs.SeekRequest | src/fs.cpp:44 | a non-negative position is passed unchanged, and a negative one becomes an offset above `INT64_MAX` |
| Vfs.SeekFromEnd | src/fs.cpp:34-40 | seeking k bytes back from the end of a file at least k long stays inside it |
| Vfs.FindLastOf | src/fs.cpp:158-159 | the last separator at or before `pos`, or `npos` when there is none |
| Vfs.AssetsBesideBinDir | src/fs.cpp:157-161 | for `root/bin/binary` the assets directory is `root/assets` |
| Vfs.AssetsWithoutSeparator | src/fs.cpp:157-161 | a bare program name gets `/assets` appended to it |
| Vfs.AssetsOneSeparator | src/fs.cpp:157-161 | for `head/binary` no second separator is found and `substr(0, npos)` keeps the whole path, giving `head/binary/assets`; with an empty head `pos - 1` wraps to `npos`, the same separator is found again and the result is `/assets` |
| Vfs.Globals.constructor | src/fs.cpp:22-24 | not fused and no open files |
| Vfs.Globals.Init | src/fs.cpp:145-161 | `fused` is set when the executable mounts, and the assets directory mounted is `AssetsPath(argv0)` |
| Vfs.FileReader.constructor | src/fs.cpp:52-54 | a reader starts without a file |
| Vfs.FileReader.Open | src/fs.cpp:72-81 | the reader holds a file exactly when the open succeeds, and only a success is counted |
| Vfs.FileReader.Close | src/fs.cpp:83-88 | the count drops by one when the reader holds a file and is unchanged otherwise |
| Vfs.CloseTwice | src/fs.cpp:83-88 | the handle is not cleared, so closing a reader twice decrements the count twice |
| Vfs.ReadCount | src/fs.cpp:240-241 | `bytes` when positive, else the file size |
| Vfs.Resized | src/fs.cpp:242 | `resize` keeps the prefix and pads with '\0' |
| Vfs.ReadString | src/fs.cpp:237-250 | a file that does not open fails and leaves the target as it was; otherwise the buffer is one longer than the count, ends with '\0' and starts with the bytes read, and the open-file count is back where it started |

## Left out

- Drawing, shaders, textures, vertex buffers, windows and the GPU calls of bgfx, SDL, PhysFS and
  lodepng are foreign code. Their effects are parameters, or two recorded sequences where the
  source uploads a buffer.
- Floating point: the vertex positions and texture coordinates of note sprites and font quads,
  the perspective matrices, and the double made from a random draw are not modelled.
- `Notefield.Field.constructor` starts the clock at a non-negative number of milliseconds. The
  source sets `time = -1` seconds; converting a negative time to `uint32_t` is undefined, so that
  state is not modelled.
- `Notefield.Field.Update` takes `time` and `dt` as integer milliseconds, not double seconds. It
  requires the new clock to fit a `uint32_t`, because the source's conversion is undefined
  beyond that range.
- `Game.Screen.Update` requires that no note field is listed twice on a screen. The source has
  no such requirement; the model does not cover aliased widgets.
- `FixedStep.Loop.Run` reads whether an HMD is present once per frame, as a field of the frame's
  input. The source calls `bgfx::getHMD()` at each F5 press, so it could see a different answer
  for two presses in one frame.
- `FixedStep.Loop.Advance` computes with exact `real` numbers, not IEEE doubles, so rounding in
  the lag accumulator is not modelled.
- `Game.App.Iterate` takes the frame time as an integer number of milliseconds from the caller.
  The performance-counter clock is not modelled.
- The debug-only `BX_CHECK` in `seek` is not modelled, nor the value `seek` returns, which is
  what PhysFS reports afterwards.
- `Vfs.SeekPosition` requires the 64-bit signed addition not to overflow; in C++ that overflow
  is undefined.
- `Vfs.FileReader.Open` requires the count to stay within `int`, and `Vfs.FileReader.Close`
  requires it to stay above `INT_MIN`; in C++ that overflow is undefined.
- `SpriteBatch.Batch.constructor` requires the texture's `refs < INT32_MAX`, because `refs++` in
  `src/sprite_batch.cpp:10` would overflow an `int` otherwise, which is undefined in C++.
- `SpriteBatch.Batch.Destroy` requires the texture's `refs > INT32_MIN`, because `refs--` in
  `src/sprite_batch.cpp:23` would overflow otherwise.
- `Vfs.ReadString` requires, for a file that opens, `0 <= ReadCount(bytes, size) < INT32_MAX`. In
  `src/fs.cpp:241-244` a count of -2 or less makes `resize` throw `std::length_error`, a count of
  -1 writes `data[-1]`, and a count of `INT32_MAX` overflows `_read + 1`. None of these paths is
  modelled.
- The file writer keeps the open-file count with the same open/close logic and is not modelled
  separately.
- `fs::write`, directory enumeration, `stat`, `read_vector`, `read_mem` and the log output of
  `fs::init` and `load` are not modelled.
- `Vfs.AssetsPath` takes a one-character directory separator, which is what PhysFS reports on
  every platform the game builds for.
- `BitmapFont.Font.StringWidth` returns the width as an integer. The source sums the same `int`
  fields into a `float`, which is exact only below 2^24.
- `BitmapFont.Font.SetText` requires `6 * n` to fit an `int` for a text of n characters; beyond
  that `Flen * 6` overflows.
- `BitmapFont.Font.Load` decodes only the first texture path, as the source does (it breaks
  after one). Whether the file exists and whether the PNG decodes are parameters.
- `BitmapFont.Font.constructor` takes the initial `common` fields as a parameter, because the
  source leaves them uninitialised.
- `BitmapFont.CharCode` reads the model's strings as the source's byte strings, every character
  below 256. A character above 255, which a C++ `std::string` cannot hold, is folded to its low
  byte.
- `Xorshift.Generator.Random` returns the raw 64-bit sum. The division by `UINT64_MAX` into a
  double is not modelled.
- `great` is declared in the note field but never read. The model keeps it as a constant and
  proves nothing about it.
