# react-audio-spectrum: the frame renderer in Dafny

react-audio-spectrum draws a bar spectrum of a playing `<audio>` element onto
a canvas. Each animation frame does the following:

- reads the analyser's byte frequency data;
- samples one bin per bar with a fixed stride;
- moves each bar's peak "cap": it jumps up to the value, or else falls by one unit;
- clears the canvas and draws a cap rectangle and a meter rectangle per bar.

While the audio is paused, the data is zeroed, so the caps sink one unit per
frame. The animation loop cancels itself on the first paused frame that
starts with every cap at rest.

This project models that frame (`drawMeter` in `src/AudioSpectrum.tsx`) and
the choice of the audio element (`prepareElements`, plus the guard of
`initAudioEvents`). It proves:

- what the frame computes and draws;
- that the source's push-then-update loop equals a per-bar closed form;
- that the paused loop always stops, and with in-bounds sampling stops after
  exactly as many drawing frames as the highest cap.

Modules:

- `SpectrumTypes` (`spectrum_types.dfy`): the configuration, bytes, readings,
  canvas calls and the outcome of a frame.
- `Caps` (`caps.dfy`):
  - the cap rule;
  - the closed form `NewCaps` of one frame's cap array, and the source's loop
    (`CapsAfterTurns`) proved equal to it;
  - the at-rest test and the highest cap.
- `Sampling` (`sampling.dfy`):
  - `Math.round(len / meterCount)` computed on naturals;
  - the stride reads;
  - when those reads stay in bounds.
- `Geometry` (`geometry.dfy`): the y mapping against the fixed ceiling 270, and
  the x position of each bar.
- `Frame` (`frame.dfy`):
  - one frame as a function (`Tick`), and as the source's imperative loop
    (`DrawMeter`) proved equal to it;
  - the layout of the rectangles a frame draws.
- `Decay` (`decay.dfy`): the paused loop, frame after frame, up to its stop.
- `Elements` (`elements.dfy`): which element gets play/pause handlers.

Modelling choices:

- **Reads past the end.** A `Uint8Array` read past its end gives `undefined`.
  The source pushes that value into the cap array and compares it.
  `undefined > 0` and `v < undefined` are both false, just as `0 > 0` and
  `v < 0` are for a byte `v`. So every comparison a frame makes treats a
  stored `undefined` exactly like 0, and the model stores 0 (`Caps.Stored`).
  The rectangles of such a bar have NaN coordinates, and a canvas ignores
  them, so the model draws nothing for that bar (`Frame.BarDraw`).
- **Rounding.** `Math.round(len / m)` for naturals is
  `floor((2 len + m) / (2 m))`. `Sampling.StepRoundsHalfUp` proves that this
  is the nearest integer, with halves rounding up.
- **When the stop test runs.** The source tests "all caps at rest" at the start
  of a paused frame, before that frame's update (`src/AudioSpectrum.tsx:113`).
  It does not test after the update. So the frame that brings the last cap
  to 0 still draws, and the following frame clears the canvas and stops. The
  model follows the code. For caps `[50, 0, 10]` it draws 50 paused frames,
  and the 51st stops (`Decay.FiftyFramesThenStop`).
- **Overrun.** Rounding the stride up can run past the array. With 1024 bins
  and 55 bars the stride is 19, and the last bar reads index 1026. That bar's
  reading is undefined, so it is never drawn and its cap stays at 0
  (`Sampling.FiftyFiveBarsOverrun`). The model keeps this behaviour rather
  than correcting it. `Sampling.InBoundsWhenFewBars` gives a sufficient
  condition under which it cannot happen. The default props (160 bars, 1024
  bins) fall outside that condition, but their reads stay in bounds by direct
  computation: the stride is 6 and the last index is 159 · 6 = 954
  (`Sampling.DefaultPropsInBounds`). The layout guarantees (`Frame.TickLayout`,
  `Frame.CapNeverOverlapsMeter`, `Frame.BarsDoNotOverlap`) hold for every bar
  whose read is in bounds, so they cover the drawn bars of an overrunning
  configuration too.

## Model

| member | source | states |
|---|---|---|
| Caps.CapUpdate | src/AudioSpectrum.tsx:133-144 | The new cap is the larger of the sampled value and the old cap minus one: it jumps up to the value at once, never ends below it, and otherwise falls by exactly one; byte-range caps and values keep the cap in byte range. |
| Caps.CapAfter | src/AudioSpectrum.tsx:127-144 | Whatever the reading, including a read past the end, the cap after the frame is at least the number the frame stored for that bar. |
| Caps.NewCaps | src/AudioSpectrum.tsx:126-144 | The cap array after a frame has one entry per bar, or keeps its longer length when it already has more entries than bars. |
| Caps.PushIfShort | src/AudioSpectrum.tsx:128-130 | While the cap array is shorter than meterCount, a bar appends one entry; otherwise the array is unchanged; existing entries are kept. |
| Caps.BarTurn | src/AudioSpectrum.tsx:128-144 | After bar i's turn, cap i exists and is at least the stored reading. Every other entry is what the push left. |
| Caps.CapsAfterTurns | src/AudioSpectrum.tsx:126-144 | Running the remaining turns of the bar loop leaves one cap per bar, or keeps a longer array's length: the push while short always catches up. |
| Caps.SourceLoopIsNewCaps | src/AudioSpectrum.tsx:126-144 | Running the source's loop (bar i pushes its value while the array is shorter than meterCount, then updates cap i) from any starting array ends at the per-bar closed form: grow by the sampled values, then apply the cap rule to each bar. |
| Caps.TurnsReachNewCaps | src/AudioSpectrum.tsx:126-144 | From any intermediate state of that loop (bars before i final, the rest grown), the remaining turns reach the closed form. |
| Caps.TurnAdvances | src/AudioSpectrum.tsx:128-144 | One bar's turn (push while short, then the cap rule on cap i) moves the loop state from before bar i to before bar i+1. |
| Caps.TurnsKeepEarlierCaps | src/AudioSpectrum.tsx:126-144 | Later bars' turns never change the cap of an earlier bar. |
| Caps.AllAtRest | src/AudioSpectrum.tsx:113 | The at-rest test (every cap at most 0) holds exactly when the highest cap is 0. |
| Caps.MaxCap | src/AudioSpectrum.tsx:113 | The highest cap is an upper bound of every cap, is 0 or attained by some cap, and is never negative. |
| Caps.AtRestIffMaxZero | src/AudioSpectrum.tsx:113 | "No cap above 0" (the negated `some(cap => cap > 0)`) holds exactly when the highest cap is 0. |
| Caps.NewCapsPerBar | src/AudioSpectrum.tsx:127-144 | Each bar's new cap is at least its stored reading. An existing cap with a value reading becomes max(value, cap - 1). A freshly pushed cap is updated from the value pushed for it. |
| Sampling.Step | src/AudioSpectrum.tsx:123 | The stride s satisfies 2m·s ≤ 2len + m < 2m·(s+1): it is len/m rounded half up (see `Sampling.StepRoundsHalfUp` for the same fact over the reals). |
| Sampling.Read | src/AudioSpectrum.tsx:127 | A read yields a value exactly when the index is inside the array, and that value is the entry at the index; past the end it is undefined. |
| Sampling.QuotientBounds | src/AudioSpectrum.tsx:123 | The quotient used for the stride is floor division: q·b ≤ a < (q+1)·b. |
| Sampling.StepRoundsHalfUp | src/AudioSpectrum.tsx:123 | The stride is within one half of len / meterCount, halves rounding up, as `Math.round` gives for a non-negative ratio. |
| Sampling.Sample | src/AudioSpectrum.tsx:126-127 | A frame takes exactly one reading per bar. |
| Sampling.SampleReadsStride | src/AudioSpectrum.tsx:123-127 | With in-bounds sampling, bar i reads exactly bin i·step, and that index exists. Otherwise the last bar's read is undefined. |
| Sampling.InBoundsWhenFewBars | src/AudioSpectrum.tsx:123-127 | If m·(m−1) < 2·len, every bar reads inside the array despite the round-up. |
| Sampling.FewBarsArithmetic | src/AudioSpectrum.tsx:123-127 | The inequality behind the previous row: a stride no larger than (2len+m)/(2m) keeps the last index (m−1)·stride below len. |
| Sampling.FourBarsOf1024 | src/AudioSpectrum.tsx:123-127 | 1024 bins over 4 bars: the stride is 256 and the bars read bins 0, 256, 512 and 768. |
| Sampling.DefaultPropsInBounds | src/AudioSpectrum.tsx:123-127 | The default 160 bars over 1024 bins use stride 6 and stay in bounds. |
| Sampling.FiftyFiveBarsOverrun | src/AudioSpectrum.tsx:123-127 | 55 bars over 1024 bins use stride 19. The last bar reads index 1026, which is past the end, so its reading is undefined. |
| Geometry.MeterY | src/AudioSpectrum.tsx:137-148 | Value 0 maps to the bottom of the drawable area and the ceiling 270 to y = 0 (monotonicity in `Geometry.MeterYNonIncreasing`). |
| Geometry.MeterYEnds | src/AudioSpectrum.tsx:137-141 | Value 0 maps to the bottom of the drawable area (height minus cap height), and the ceiling 270 maps to y = 0, whatever the cap height. |
| Geometry.MeterYNonIncreasing | src/AudioSpectrum.tsx:137-148 | A larger value is drawn no lower on the canvas when the drawable height is not negative. |
| Geometry.MeterYWithinDrawable | src/AudioSpectrum.tsx:137-141 | Every byte value maps inside the drawable area. |
| Geometry.BarX | src/AudioSpectrum.tsx:138-149 | Bar 0 starts at the left edge, and with a non-negative meter width plus gap no bar starts left of it (spacing in `Geometry.BarsLeftToRight`). |
| Geometry.BarsLeftToRight | src/AudioSpectrum.tsx:138-149 | With a non-negative gap, bar i's right edge is no further right than bar i+1's left edge. |
| Frame.FrameBins | src/AudioSpectrum.tsx:108-112 | The data a frame works on has the analyser's length; it is the analyser's data while playing and all zeros while paused. |
| Frame.Tick | src/AudioSpectrum.tsx:104-151 | A frame stops exactly when paused with no cap above 0, and then draws only the clear. While playing it always goes on. A frame that goes on starts with the clear, has one cap per bar (or more), and leaves every bar's cap at or above what it read. |
| Frame.BarDraw | src/AudioSpectrum.tsx:131-149 | A bar draws nothing exactly when its read is undefined (its rectangles would have NaN coordinates). Otherwise it draws two rectangles, first the cap in the cap colour, then the meter in the gradient. |
| Frame.DrawBar | src/AudioSpectrum.tsx:127-149 | One iteration of the source's bar loop performs the bar's push-and-update turn. It draws the cap at its new height and the meter at the read value, or nothing for an undefined read. |
| Frame.DrawBars | src/AudioSpectrum.tsx:126-150 | The source's bar loop yields the closed-form new caps, and each bar's rectangles in bar order. |
| Frame.DrawMeter | src/AudioSpectrum.tsx:104-151 | The source's frame, written as its statements (zero the data when paused, the at-rest exit, sampling, the loop), gives exactly the frame of `Tick`. |
| Frame.TickKeepsCapsInByteRange | src/AudioSpectrum.tsx:126-144 | Caps that start a frame within 0..255 end it within 0..255. |
| Frame.NewCapsFromEmpty | src/AudioSpectrum.tsx:128-130 | Starting from no caps, the frame leaves one cap per reading, equal to the stored reading. |
| Frame.FirstFrameSeedsCaps | src/AudioSpectrum.tsx:126-144 | The first drawing frame of a session, which starts with an empty cap array, seeds one cap per bar with exactly that bar's reading. |
| Frame.FirstPlayingFrameReadsStride | src/AudioSpectrum.tsx:123-130 | While playing with in-bounds sampling, the first frame's cap j is bin j·step. |
| Frame.BarDrawsLayout | src/AudioSpectrum.tsx:126-150 | When every bar reads a value, bar j's cap rectangle is draw 2j and its meter rectangle is draw 2j+1. |
| Frame.BarDrawsLength | src/AudioSpectrum.tsx:126-150 | Bars that all read a value draw exactly two rectangles each. |
| Frame.BarDrawsPrefix | src/AudioSpectrum.tsx:126-150 | Later bars only append: the draws of the first k bars begin the draws of the first n bars, whatever the later bars read. |
| Frame.BarRectsAt | src/AudioSpectrum.tsx:124-150 | When bars 0..j read a value (later bars may read undefined), bar j's cap is at position 1+2j of the frame's draws after the clear, and its meter at 2+2j. |
| Frame.EarlierReadsInBounds | src/AudioSpectrum.tsx:123-127 | If bar j's read is in bounds, every earlier bar's read is in bounds too and reads its bin k·step. |
| Frame.TickLayout | src/AudioSpectrum.tsx:124-149 | For every bar j whose read is in bounds (all bars with in-bounds sampling, when the frame issues 1 + 2·meterCount calls), bar j's cap sits at its new cap's height and its meter at the height of bin j·step, both at x = j·(meterWidth+gap), and that cap is at or above the value. |
| Frame.CapNeverOverlapsMeter | src/AudioSpectrum.tsx:137-149 | For every drawn bar j (its read is in bounds) and a non-negative drawable height, bar j's cap rectangle ends at or above the top of its meter rectangle. |
| Frame.BarsDoNotOverlap | src/AudioSpectrum.tsx:138-149 | With a non-negative gap, whenever bars j and j+1 are both drawn (bar j+1's read is in bounds), bar j's meter ends no further right than where bar j+1's cap begins. |
| Decay.PausedReadings | src/AudioSpectrum.tsx:108-127 | A paused frame reads 0 for every bar, or undefined past the end. With in-bounds sampling it reads 0 for every bar. |
| Decay.ZeroFrameCapAt | src/AudioSpectrum.tsx:128-144 | Under all-zero or undefined readings, a cap never goes negative and drops to at most max(cap−1, 0). It is exactly max(cap−1, 0) on a 0 reading, and a freshly pushed cap is 0. |
| Decay.ZeroFrameLowersMax | src/AudioSpectrum.tsx:133-144 | Such a frame lowers the highest positive cap by at least one, and by exactly one when every reading is 0. |
| Decay.PausedFrameDecays | src/AudioSpectrum.tsx:108-144 | A paused frame with in-bounds sampling and some cap above 0 goes on. Each positive cap falls by exactly one, every other cap (pushed ones included) is 0, and there is one cap per bar. |
| Decay.PausedFrameLowersMax | src/AudioSpectrum.tsx:108-144 | A paused frame that goes on had a positive highest cap, and lowers it by at least one (by exactly one with in-bounds sampling). |
| Decay.PausedDrawFrames | src/AudioSpectrum.tsx:108-151 | A paused loop stops, and draws at most as many frames as its highest cap. |
| Decay.PausedLoopStopsAfterMaxCap | src/AudioSpectrum.tsx:108-151 | With in-bounds sampling, a paused loop draws exactly as many frames as its highest cap, then stops on the next frame. |
| Decay.FiftyFramesThenStop | src/AudioSpectrum.tsx:108-121 | Paused with caps [50, 0, 10] over 1024 bins, the loop draws 50 frames and the 51st stops. |
| Decay.PausedFirstFrameStops | src/AudioSpectrum.tsx:113-119 | Paused before any cap exists, the very first frame only clears the canvas and stops. |
| Elements.ResolveAudio | src/AudioSpectrum.tsx:74-83 | With neither an id nor an element, nothing is resolved. Without an id the passed element is used; any element resolved is the one found by id or the passed one (with an id, `Elements.IdTakesPrecedence`). |
| Elements.IdTakesPrecedence | src/AudioSpectrum.tsx:79-83 | Given an id, the element found by that id is used, and the passed element makes no difference. |
| Elements.HandlersInstalledIff | src/AudioSpectrum.tsx:74-83 | Play and pause handlers (guarded at line 193) are installed exactly when an id is given and found, or when no id is given and an element is passed. |

## Left out

- The audio graph (`setupAudioNode`, `prepareAPIs`): the AudioContext, the analyser's FFT and its smoothing are browser code. The model takes the analyser's byte data of each frame as an input.
- `requestAnimationFrame` and `cancelAnimationFrame`: a frame's outcome (`Stop` or `Continue`) stands for whether the next frame is scheduled.
- Playback start: each `onplay` starts a fresh drawing session with its own empty cap array. The model treats sessions one at a time. Two loops running at once after repeated play events are not modelled.
- The gradient and its colour stops, and `capColor`: colours are abstracted as `CapColor` and `MeterGradient`.
- The React wiring (`useEffect`, `useRef`, the canvas element, `getRandomId` for the id): these set up the session but compute nothing the frame depends on beyond the props in `Config`.
- Floating-point arithmetic: coordinates are exact reals, so rounding of the y and x values is not modelled.
- A fractional `meterCount`: the model's `meterCount` is a natural number, so `Math.round(meterCount)` in the push guard is the identity.
- A `meterCount` of 0: the stride would be `Infinity`, but no bar reads it. The model computes no stride then, and the frame draws only the clear.
- Elements.ResolveAudio: the `console.error` on a missing target is not modelled, and a falsy id is modelled as the empty string.
- Decay.PausedDrawFrames: states only an upper bound on the number of frames in general. The exact count is proved only for in-bounds sampling (`Decay.PausedLoopStopsAfterMaxCap`), because an undefined read drops its cap to 0 at once.
