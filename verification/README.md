# Scroll heat map and traffic chart playground, modelled in Dafny

The repository is a small React playground with two views.

- **`ScrollHeatMap`** lays a heat overlay on a long page.
  - It maps a numeric engagement series onto a vertical canvas gradient: one colour stop per sample, on a blue → cyan → green → yellow → red ramp, with alpha `intensity × opacity`.
  - It repaints the overlay when the content has loaded, when a setting changes and when the window is resized.
  - A discrete five-colour palette (`getHeatColor`) draws the legend swatches.
- **`App`** is a line chart over two synthetic traffic series, "press" and "story", and their day-by-day zip.
  - Each series is drawn in a colour the user types as hex or picks.
  - Typed colours are trimmed and get a `#` prefix, and invalid ones fall back to a default.
  - The tooltip and legend show only the PV and UU series.
  - A text listing the colours can be copied.

## Modules

The model is a set of pure functions over immutable data. Numbers are Dafny `real`.

- `JsMath`: `Math.floor`, `Math.round` (floor of x + 1/2), `Math.min`, `Math.max`, `Math.abs`.
- `JsText`: `String.prototype.trim` with the ECMAScript whitespace and line-terminator set, `startsWith`, decimal rendering of a number in a template literal, `join("\n")` and `split("\n")`.
- `Optional`: `null` / `undefined` as `Option`.
- `HeatGradient`: normalisation, the four-band colour ramp, the gradient stops, and the `getHeatColor` palette lookup with its legend swatches.
- `HeatCanvas`:
  - The paint: resize to the content box, clear, then fill unless hidden.
  - The overlay controller as a state machine. A trigger is one of: the load timer firing, the checkbox, the opacity slider, a window resize, unmounting.
  - Each trigger sees the page as a `Host`: whether the canvas is attached, and the content box if there is one.
- `Traffic`: `generateTrafficData` and `formatMonthDay`. `Math.sin` is a parameter `sin` returning any value in [-1, 1]. The calendar is a parameter `calendar(i)` giving month, day of month and weekday `i` days after the start.
- `ColorInput`: `isValidHex`, `normalizeHex`, `getColor`, the colour state with its text-input and picker updates, and the colour lines of `buildHexText`.
- `ChartData`: the `combinedData` zip, the `data` selector, and the tooltip and legend filters.

## Where the model follows the code, not its comments

- **Intensity is not clamped.** It is `(v - min) / (max - min)`. It lies in [0, 1] only because every sample lies between the series minimum and maximum.
- **Flat or short series are not guarded.** The comment on the intensity line (src/Heatmap.tsx:86) says "Normalize to 0-1", but nothing checks that the series has two distinct values. What happens otherwise depends on the series:
  - An empty series involves no division: `Math.max()` is -Infinity, the loop adds no stop, and the box is filled with a gradient that has no stops.
  - A single sample makes the position 0 / 0. `addColorStop` rejects the NaN offset and throws.
  - A flat series of two or more samples makes the intensity NaN. `addColorStop` rejects the colour `rgba(255, NaN, 0, NaN)` and throws.
  - When `addColorStop` throws, the paint stops after the resize and the clear, and no stop is stored. From the resize handler this leaves the canvas blank. From the redraw effect the error reaches React instead, and with no error boundary in the program React unmounts the tree.

  The model requires `Normalizable` (at least one sample and a minimum below the maximum) and does not model these three paths.
- **A zero-size content box is still painted.** The code resizes and paints even when the box is 0 × 0; it does not wait for a non-empty one.
- **The canvas store is truncated.** The `width` and `height` attributes are integers, so assigning the box size truncates it. The model keeps `Floor` of the box for the backing store and the exact box for the CSS size and the fill.

## Model

| member | source | states |
|---|---|---|
| HeatGradient.SeqMin | src/Heatmap.tsx:79 | `Math.min(...values)` is one of the samples and no sample is below it |
| HeatGradient.SeqMax | src/Heatmap.tsx:78 | `Math.max(...values)` is one of the samples and no sample is above it |
| HeatGradient.RampIsAnchorInterpolation | src/Heatmap.tsx:88-105 | the four literal colour branches are exactly a linear interpolation between consecutive anchors blue, cyan, green, yellow, red, in the band of the intensity |
| HeatGradient.RampContinuousAtBandEdges | src/Heatmap.tsx:89-105 | where one band ends (t = 1), the next starts (t = 0) at the same anchor colour, so the ramp has no jumps at 0.25, 0.5 and 0.75 |
| HeatGradient.RampHitsAnchors | src/Heatmap.tsx:89-105 | intensity 0, 0.25, 0.5, 0.75 and 1 give blue, cyan, green, yellow and red |
| HeatGradient.RampChannelsInRange | src/Heatmap.tsx:89-105 | for an intensity in [0, 1] every rounded channel lies in [0, 255] |
| HeatGradient.RampMonotoneWithinBand | src/Heatmap.tsx:89-105 | within each band exactly one channel moves, monotonically: green rises, blue falls, red rises, green falls |
| HeatGradient.GradientStops | src/Heatmap.tsx:84-108 | exactly one stop per sample, in sample order, stop i built from sample i |
| HeatGradient.IntensityFacts | src/Heatmap.tsx:86 | normalisation maps the minimum to 0, the maximum to 1, anything between into [0, 1], and keeps order |
| HeatGradient.StopPositionsSpanAndIncrease | src/Heatmap.tsx:84-85 | positions `index / (N - 1)` start at 0, end at 1 and strictly increase |
| HeatGradient.IntensitiesNormalized | src/Heatmap.tsx:77-86 | every sample's intensity lies in [0, 1]; a minimal sample has intensity 0 and a maximal one intensity 1 |
| HeatGradient.IntensityMonotone | src/Heatmap.tsx:86 | a larger sample never gets a smaller intensity |
| HeatGradient.StopAlphaAt | src/Heatmap.tsx:86-104 | stop i's alpha is its intensity × opacity, lies in [0, opacity], is 0 at intensity 0 and the full opacity at intensity 1 |
| HeatGradient.StopAlphaFadesWithIntensity | src/Heatmap.tsx:77-104 | every stop's alpha is intensity × opacity, lies in [0, opacity], is 0 at a minimal sample and the full opacity at a maximal one |
| HeatGradient.StopColorsInRange | src/Heatmap.tsx:88-105 | every stop's colour has all channels in [0, 255] |
| HeatGradient.ThreeSampleScenario | src/Heatmap.tsx:84-108 | the series 100, 150, 200 at opacity 0.6 gives transparent blue at 0, green with alpha 0.3 at 0.5, and red with alpha 0.6 at 1 |
| HeatGradient.GetHeatColor | src/Heatmap.tsx:49-54 | the palette entry at `min(floor(intensity × (len - 1)), len - 1)`, and undefined exactly when that index is negative |
| HeatGradient.HeatColorIndexInPalette | src/Heatmap.tsx:49-54 | for intensity ≥ 0 the index lies in [0, len - 1], and the cap sends every intensity ≥ 1 to the last entry |
| HeatGradient.GetHeatColorDefinedIff | src/Heatmap.tsx:49-54 | with at least two colours, a colour is found exactly for non-negative intensities |
| HeatGradient.LegendPicksPaletteEntries | src/Heatmap.tsx:283-288 | the swatches for (3 - k) / 3, k = 0..3, are palette entries 4, 2, 1, 0 with alpha 0.8 |
| HeatCanvas.Paint | src/Heatmap.tsx:62-111 | after a paint the backing store is the box size truncated, the CSS size is the box, and there is no fill when hidden and one fill of the whole box otherwise |
| HeatCanvas.PaintSteps | src/Heatmap.tsx:56-112 | the step-by-step paint, which builds the stops in a loop, ends in exactly the state `Paint` describes |
| HeatCanvas.DrawHeatMap | src/Heatmap.tsx:56-60 | the canvas is painted exactly when the canvas, the content and the loaded flag are all present; otherwise nothing changes |
| HeatCanvas.Step | src/Heatmap.tsx:114-137 | the checkbox and the slider store the chosen value; the loaded flag only goes from false to true; a paint happens exactly when the view is mounted, loaded and attached and the event is a resize or gives the loaded flag or a setting a new value, and it shows the new settings; an unmounted view ignores every trigger |
| HeatCanvas.OpacityChangeRepaints | src/Heatmap.tsx:122-126 | moving the slider on a loaded, shown overlay repaints every stop at the chosen opacity |
| HeatCanvas.ShowingPaintsGradient | src/Heatmap.tsx:66-111 | ticking the checkbox on a loaded, hidden overlay fills the current box with the gradient at the current opacity |
| HeatCanvas.InitialInSync | src/Heatmap.tsx:7-10 | the initial state (not loaded, shown, opacity 0.6, untouched canvas) satisfies the sync invariant |
| HeatCanvas.StepKeepsInSync | src/Heatmap.tsx:122-137 | while the page keeps its refs attached, every trigger keeps the invariant: before loading the canvas is untouched, and after it the canvas shows the current settings |
| HeatCanvas.RunKeepsInSync | src/Heatmap.tsx:114-137 | the sync invariant holds after any sequence of triggers on an attached page |
| HeatCanvas.NothingPaintedBeforeLoad | src/Heatmap.tsx:114-126 | over any trigger sequence the loaded flag never returns to false, and while it is false the canvas is never touched |
| HeatCanvas.NothingAfterUnmount | src/Heatmap.tsx:114-137 | once the timer and resize listener are cleaned up, no trigger changes anything |
| HeatCanvas.HidingBlanksCanvas | src/Heatmap.tsx:66-74 | unticking the checkbox on a loaded overlay repaints it at the current box with no fill |
| HeatCanvas.ResizeTracksContentBox | src/Heatmap.tsx:128-137 | a resize of a loaded overlay resizes the canvas to the new content box |
| JsText.Trim | src/App.tsx:55-57 | `trim` never lengthens its input and leaves no whitespace at either end |
| JsText.TrimCutsWhitespace | src/App.tsx:55-57 | what `trim` keeps is a contiguous piece of the input, and everything cut before and after it is whitespace |
| JsText.TrimEmptyIff | src/App.tsx:57-58 | trimming gives the empty string exactly for whitespace-only input |
| JsText.TrimIdempotent | src/App.tsx:57 | trimming twice is trimming once |
| ColorInput.MatchHexRunIff | src/App.tsx:55 | the digit run of the pattern accepts exactly the strings of hex digits |
| ColorInput.MatchHexPatternIff | src/App.tsx:55 | `/^#([0-9a-fA-F]{6})$/` accepts exactly `#` followed by six hex digits |
| ColorInput.IsValidHexIff | src/App.tsx:55 | `isValidHex(v)` holds iff `trim(v)` has length 7, starts with `#` and has six hex digits after it |
| ColorInput.HexColorIsValid | src/App.tsx:55 | a string that is `#` and six hex digits has nothing to trim and passes `isValidHex` |
| ColorInput.NormalizeHex | src/App.tsx:56-60 | the result is the trimmed input, with `#` put in front only when missing; it is empty exactly for whitespace-only input and otherwise starts with `#` |
| ColorInput.NormalizedIsTrimmed | src/App.tsx:56-60 | a normalised value has no whitespace at either end |
| ColorInput.NormalizeHexIdempotent | src/App.tsx:56-60 | normalising twice is normalising once |
| ColorInput.NormalizeHexValidIff | src/App.tsx:55-60 | a normalised value is a valid hex exactly when the trimmed input was six hex digits, with or without its `#` |
| ColorInput.GetColor | src/App.tsx:61-62 | the value when it is a valid hex, the fallback otherwise, so a valid fallback always yields a valid colour |
| ColorInput.FallbacksValid | src/App.tsx:48-53 | each of the four default colours is `#` and six hex digits and passes `isValidHex` |
| ColorInput.DefaultsStoredTrimmed | src/App.tsx:48-53 | the initial colour state stores only trimmed values |
| ColorInput.ColorEditsKeepTrimmed | src/App.tsx:214-227 | a text edit (stored normalised) and a picker edit (stored as reported) keep every stored colour trimmed |
| ColorInput.ColorLineCarriesValidHex | src/App.tsx:69-73 | each colour line is its label, `: `, then a valid hex colour, whatever is stored |
| ColorInput.ResolvedColorIsExact | src/App.tsx:61-73 | for a trimmed stored colour the colour written on its line is exactly `#` and six hex digits |
| ColorInput.ColorLineIsOneLine | src/App.tsx:69-73 | so each colour line holds no newline |
| ColorInput.HexTextLines | src/App.tsx:67-78 | splitting the copied text at newlines gives back the four colour lines, an empty line, `JSON:` and the lines of the serialised colours |
| JsText.SplitJoinLines | src/App.tsx:69-77 | `join("\n")` of newline-free lines is undone by `split("\n")` |
| ChartData.ZipEntries | src/App.tsx:28-41 | the zip is as long as the shorter series, and row i has the date, PV and UU of press day i and the PV and UU of story day i |
| ChartData.CombineSeries | src/App.tsx:28-41 | the `combinedData` loop builds exactly the zip, row by row |
| ChartData.ZipProjections | src/App.tsx:29-39 | the press half of each row is the press point; the story half is the story point wherever the two series share the date |
| ChartData.ZipKeepsTrafficInvariant | src/App.tsx:29-39 | if both series satisfy 0 ≤ UU ≤ PV ≤ UU + 3, both halves of every combined row do too |
| ChartData.SelectDataPicks | src/App.tsx:42-46 | "press" plots the press series, "story" the story series, and only "both" plots the zip, whose rows read back as press rows |
| ChartData.Filter | src/App.tsx:113-121 | every kept entry satisfies the predicate and comes from the input |
| ChartData.FilterAppend | src/App.tsx:113-121 | filtering distributes over concatenation, so kept entries keep their order |
| ChartData.FilterComplete | src/App.tsx:113-121 | every entry the predicate accepts is kept |
| ChartData.FilterEmptyIff | src/App.tsx:113-122 | nothing is kept exactly when no entry is accepted |
| ChartData.TooltipRows | src/App.tsx:110-122 | the tooltip renders exactly when it is active and its payload has a string name starting with PV or UU, and then lists exactly the filtered payload |
| ChartData.LegendRows | src/App.tsx:157-168 | the legend renders exactly when its payload has a string value starting with PV or UU, and then lists exactly the filtered payload |
| ChartData.TooltipShowsExactlySeries | src/App.tsx:113-122 | a shown tooltip lists only series entries from the payload, and every series entry of the payload |
| ChartData.LegendShowsExactlySeries | src/App.tsx:162-168 | the same for the legend |
| ChartData.TooltipExample | src/App.tsx:113-122 | a payload of the unnamed area series (named after its data key "uu", which fails the case-sensitive `startsWith("UU")`), PV, an entry with no name and UU keeps PV and UU, in that order |
| Traffic.FormatMonthDayRoundTrip | src/data/traffic.ts:15-19 | the `m/d` label reads back as the one-based month, which lies in 1..12, and the day of the month |
| Traffic.DayFactors | src/data/traffic.ts:34-53 | the weekend factor is 0.9 exactly on Sunday and Saturday and 1 otherwise; the spike is 1.2, 1.1, then 1; story growth lies in [22, 38] |
| Traffic.DeltaRange | src/data/traffic.ts:42-62 | the PV–UU gap is 0 on every sixth press day and every fifth story day, and in [1, 3] otherwise, whatever the sine returns |
| Traffic.DayPointInvariant | src/data/traffic.ts:41-63 | every point has 0 ≤ UU ≤ PV and PV − UU ≤ 3, and the gap is the day's delta unless PV is smaller |
| Traffic.NonPressTakesStoryBranch | src/data/traffic.ts:37-51 | every key other than "press", "both" included, produces the story point |
| Traffic.PageViewBounds | src/data/traffic.ts:39-55 | press PV lies in 14..53 and story PV in 10..49, so the clamp at 0 never applies and PV is the rounded level |
| Traffic.GenerateTrafficData | src/data/traffic.ts:22-68 | for any sine and calendar, the result has `max(days, 0)` points; point j is day j's point, labelled with day j's date, with 0 ≤ UU ≤ PV ≤ UU + 3 |

## Left out

- React plumbing: hooks, refs, JSX, CSS classes and layout. The overlay controller is the state machine `HeatCanvas.Step`, and the colour state is a record updated by pure functions.
- Canvas and DOM calls: `getContext`, `createLinearGradient`, `addColorStop`, `clearRect`, `fillRect` and `getBoundingClientRect` are abstract. The canvas is a record, and the content box is an input of every trigger.
- The 100 ms load timer and the window resize listener: each firing is an `Event`. Their cleanup on unmount is the `Unmounted` event, after which nothing reacts.
- The colour-scheme table: it has one entry, `standard`, and the scheme state has no setter. The palette is `StandardPalette`, and the legend swatch alpha 0.8 is appended to it as a number, not as text.
- The `rgba(...)` strings of the stops and swatches: colours are numeric records. The stop colours are rounded channels and an unrounded alpha, as in the template strings.
- The hard-coded engagement data and the unused `total_user` series: the series is a parameter. One concrete three-sample series appears in `HeatGradient.ThreeSampleScenario`.
- IEEE-754 arithmetic: numbers are exact reals. `Math.round` is floor(x + 1/2), NaN and infinities do not exist, and the flat or one-sample series is excluded by a precondition.
- HeatGradient.GradientStops: requires `Normalizable` (at least two distinct sample values). For other series the code does not reject the input: an empty series gives a fill with no stops, and one sample or a flat series makes `addColorStop` throw after the clear, which the model does not follow.
- HeatCanvas.Paint: requires `Normalizable` when shown, for the same reason. A hidden paint accepts any series, as in the code.
- `Math.sin`, `Date`, `addDays`, `getDay`, `getMonth` and `getDate`: they are parameters (`sin`, `calendar`), so no particular calendar or start date is modelled.
- Traffic.GenerateTrafficData: `days` is an integer. A fractional `days` would run the loop up to the next integer; the `startIso` string is not parsed.
- `copyColors`: the clipboard write, its `execCommand` fallback and the copy-status timers are I/O.
- `JSON.stringify` in `buildHexText`: the serialised colours are a parameter `json`.
- The recharts components, axes and the percentage label: the chart library is not part of this model. So is the tooltip's date line `String(label ?? "")`, whose number-to-text conversion the model does not cover.
- The dataset `<select>` element: the chosen key is the input of `ChartData.SelectData`. The precomputed `pressTraffic90` / `storyTraffic90` are `GenerateTrafficData` with `days = 90` and the press or story key.
