# fluxcore_ng, modelled in Dafny

fluxcore_ng is a fast scatter-plot viewer for CSV files. It reads a CSV file into
columns of 32-bit floats. Missing cells ("NA", "?") become NaN, and each column
keeps its running minimum and maximum. The viewer then plots one column against
another, optionally with a third column as depth, using additive blending, so
dense regions glow brighter. A gamma curve decompresses the brightness when the
picture is composited to the screen. The window reacts to the keyboard and the
mouse:
- cycling the column on each axis;
- changing point size and gamma;
- toggling the point border;
- resetting the view;
- panning by drag;
- zooming around the pointer with the wheel.

To stay responsive, a change is first drawn into a small low-resolution texture.
The full-resolution texture is drawn only once the input has been quiet for half
a second. Frames are throttled to one per 50 ms.

The model has eight modules:

- `Wrappers`: `Option` and `Result`.
- `Floats`: how the program uses `f32`. A cell is `Missing` (NaN) or a number. Running extrema live on reals extended with ±∞. `f32::min`/`f32::max` ignore NaN. The clamped multiplicative steps of the point-size and gamma keys are here too.
- `Config`: the tuning constants of `src/cfg.rs`.
- `Ingest`: a pure specification of the CSV validation loop that both loaders share:
  - too few headers;
  - a row of the wrong width (1-based row number, found and expected width);
  - an unparseable cell (1-based column and row);
  - otherwise the table, split into columns with their extrema.
- `Data`: `src/data.rs`.
  - `Column` is a class whose `Push` updates its data and extrema in place.
  - `ColumnsFromFile` is a loop over the rows, proved equal to `Ingest.Load`, with NA tokens read as missing.
  - `PointsFromColumns` zips three columns.
- `Axes`: the `Projection` of `src/renderer.rs`. Each axis is a pair `Axis(scale, delta)`, and a data value `v` is drawn at `v * scale + delta`. The module covers fitting an axis to a data range, panning, zooming around a cursor, and the 4×4 matrix. `Projection` is a class with one field per `f32` of the source struct.
- `Renderer`: `src/renderer.rs`.
  - The pure part is the viewer's logical state (`View`), what one event does to it (`Step`), and what a sequence of events does (`Run`). The frame's debounce decision (`PlanFrame`) and the frame throttle (`SleepMillis`) are pure too.
  - The imperative part is the `Renderer` class: the fields of the source struct, with one method per event branch, the event loop, and one frame of `run_forever`.
  - Each method is proved against the pure functions, and the lemmas state the properties of the pure functions.
- `Standalone`: the older single-file viewer in `src/main.rs`:
  - the command-line validator for the window size;
  - its own loader, without NA tokens;
  - its two-axis projection;
  - its simpler main loop.

Clocks are integer millisecond parameters. The GPU, the window system, the CSV reader and the float parser are outside the model. The parser is a function parameter and the reader gives rows of strings.

## Model

| member | source | states |
|---|---|---|
| Floats.Min | src/renderer.rs:329 | the smaller of two numbers: at most both, and one of them |
| Floats.Max | src/renderer.rs:333 | the larger of two numbers: at least both, and one of them |
| Floats.MinCell | src/data.rs:29-33 | `f32::min` with a NaN cell keeps the running minimum; with a number it is one of the two, at most the number unless the minimum is −∞, and at most a finite minimum |
| Floats.MaxCell | src/data.rs:29-33 | `f32::max` with a NaN cell keeps the running maximum; with a number it is one of the two, at least the number unless the maximum is +∞, and at least a finite maximum |
| Floats.Increase | src/renderer.rs:328-343 | the step up is the value times the factor, capped at the upper clamp: at most both, and one of them |
| Floats.Decrease | src/renderer.rs:328-343 | the step down is the value divided by the factor, floored at the lower clamp: at least both, and one of them |
| Floats.LowestIsLeast | src/data.rs:29-33 | the running minimum over a column is never −∞; it stays +∞ exactly when every cell is missing; otherwise it is the least present value |
| Floats.HighestIsGreatest | src/data.rs:29-33 | the running maximum is never +∞; it stays −∞ exactly when every cell is missing; otherwise it is the greatest present value |
| Floats.ExtremaOrdered | src/data.rs:29-33 | a column with a present value has finite extrema with min ≤ max |
| Floats.PressStaysInRange | src/renderer.rs:328-343 | one J/K/N/M step keeps the value inside its clamps, moves it in the pressed direction, and leaves it fixed at the bound it is pushed against |
| Floats.QuotientBelow | src/renderer.rs:333 | dividing by a change factor above 1 shrinks a positive value and keeps it positive |
| Floats.PressesStayInRange | src/renderer.rs:328-343 | any sequence of such steps keeps the value inside its clamps |
| Config.GammaDefaultInRange | src/cfg.rs:2-5 | the default gamma lies between its positive clamps |
| Config.PointsizeDefaultInRange | src/cfg.rs:8-11 | the default point size lies between its positive clamps |
| Config.ChangeFactorsGrow | src/cfg.rs:2-8 | both change factors exceed 1, so J/N grow and K/M shrink |
| Config.ScaleFloorPositive | src/cfg.rs:12 | the zoom floor is positive, so a zoomed scale never reaches 0 |
| Config.LowresAndScrollFactors | src/cfg.rs:6-13 | the low-resolution factor is strictly between 0 and 1, and the scroll base is positive |
| Config.FrameShorterThanDebounce | src/cfg.rs:1-7 | a frame is shorter than the low-resolution debounce delay |
| Ingest.ReadCells | src/data.rs:73-85 | reading a row either fails or yields one cell per input string |
| Ingest.ReadRows | src/data.rs:67-86 | reading the rows either fails or yields one row of width m per input row |
| Ingest.ColumnOfAppend | src/data.rs:84 | pushing one more row onto the columns appends its j-th cell to column j and leaves the earlier cells alone |
| Ingest.ReadRowsNext | src/data.rs:67-86 | reading one more row after a good prefix fails with that row's width error or first unparseable cell, or appends the row's cells to the table |
| Ingest.ReadCellsOk | src/data.rs:73-85 | a row reads successfully iff every cell parses, and then cell k is the parse of string k |
| Ingest.ReadCellsErr | src/data.rs:79-81 | a failed row reports the first cell that does not parse, with its 1-based column and the row's 1-based number |
| Ingest.ReadRowsOk | src/data.rs:67-86 | the rows read successfully iff every row has width m and every cell parses, and then cell (i, j) is the parse of string (i, j) |
| Ingest.ReadRowsErr | src/data.rs:69-81 | a failure names the first offending row: a width error gives its 1-based number with found and expected width; a parse error gives the first bad cell |
| Ingest.ReadCellsStopsAtError | src/data.rs:79-81 | once a prefix of a row fails, the rest of the row does not change the error |
| Ingest.ReadRowsStopsAtError | src/data.rs:67-86 | once a prefix of the rows fails, later rows do not change the error |
| Ingest.RefusesFewHeaders | src/data.rs:57-61 | fewer than two headers is refused, whatever the rows |
| Ingest.LoadSucceedsIff | src/data.rs:57-88 | loading succeeds iff there are at least two headers and every row is readable at the header count |
| Ingest.LoadReportsFirstOffender | src/data.rs:57-86 | a failed load reports too few headers, or the first row of the wrong width, or the first cell that does not parse |
| Ingest.Load | src/data.rs:57-88 | a successful load gives exactly one column per header, named after it, each holding one cell per row |
| Ingest.LoadContents | src/data.rs:63-88 | a successful load gives one column per header, with the header's name; its cells are the parsed cells of that column in row order; its min/max are the running extrema of those cells |
| Data.Column.constructor | src/data.rs:20-27 | a new column has the given name, no data, min +∞ and max −∞ |
| Data.Column.Push | src/data.rs:29-33 | appends the value; a missing value leaves the extrema alone; the extrema stay infinite exactly while all cells are missing and are otherwise the least/greatest present value |
| Data.ToLowerLowers | src/data.rs:38 | no upper-case ASCII letter is left after lowercasing, and lowercasing twice is lowercasing once |
| Data.ReadCell | src/data.rs:74-83 | "NA" and "?" read as missing cells; any other string reads as the parser reads it, so a parsed string is never refused |
| Data.IsNaString | src/data.rs:37-46 | a cell is an NA token iff it is "?" or "na" in any letter case |
| Data.NaTokens | src/data.rs:37-46 | "NA", "Na", "nA", "na" and "?" are NA tokens; "nan", "N/A" and "" are not |
| Data.NewColumns | src/data.rs:63-65 | one fresh, empty column per header, named after it, all distinct |
| Data.PushRecord | src/data.rs:73-85 | pushes a row cell by cell; it fails iff the row does not read, with the same error; on success each column gains its cell |
| Data.PushRow | src/data.rs:68-85 | checks one row's width, then pushes it; the columns and the result agree with reading one more row |
| Data.ColumnsFromFile | src/data.rs:49-89 | fails iff `Load` fails, with the same error; on success gives distinct columns, each freshly allocated, whose snapshots are exactly the loaded columns |
| Data.Zip3 | src/data.rs:92-96 | as many points as the shortest column, point i holding the i-th cells |
| Data.PointsFromColumns | src/data.rs:91-97 | points as long as the shortest of the three selected columns, point i built from row i of each |
| Data.LoadedPoints | src/data.rs:49-97 | after a successful load, point i of any three columns holds the parsed cells of row i, one point per row |
| Axes.PlaceInverse | src/renderer.rs:110-117 | placing a value on a non-degenerate axis and reading it back are inverse |
| Axes.Fit | src/renderer.rs:62-84 | fitting to a single-valued range keeps the old scale (only the offset moves), so it never divides by zero |
| Axes.FitFits | src/renderer.rs:62-84 | a fitted axis maps lo to the bottom of its interval and, for a proper range, hi to the top, with a positive scale |
| Axes.FitIsUnique | src/renderer.rs:62-84 | for a proper range, only one axis maps [lo, hi] onto the target interval |
| Axes.FitIdempotent | src/renderer.rs:62-84 | fitting an axis that already fits changes nothing, and fitting twice is fitting once |
| Axes.Pan | src/renderer.rs:86-92 | panning keeps the scale |
| Axes.DragsCompose | src/renderer.rs:86-92 | two drags add up to one drag over the combined distance, and dragging back undoes a drag |
| Axes.Zoom | src/renderer.rs:94-108 | the zoomed scale is the old scale times the factor, floored at SCALE_MIN |
| Axes.ZoomKeepsPoint | src/renderer.rs:94-108 | the data value under the cursor is the same before and after the zoom |
| Axes.SameReadingSameAxis | src/renderer.rs:94-108 | two axes with the same scale that read the same value at one point are equal |
| Axes.ZoomUndone | src/renderer.rs:94-108 | zooming by a factor and then by its inverse at the same cursor restores the axis, while the floor is not hit |
| Axes.Projection.constructor | src/renderer.rs:51-60 | a new projection is the identity on all three axes |
| Axes.Projection.AdjustX | src/renderer.rs:62-68 | x becomes the old x fitted to [min, max] over [-1, 1] |
| Axes.Projection.AdjustY | src/renderer.rs:70-76 | y becomes the old y fitted to [min, max] over [-1, 1] |
| Axes.Projection.AdjustZ | src/renderer.rs:78-84 | depth becomes the old depth fitted to [min, max] over [0, 1] |
| Axes.Projection.MoveX | src/renderer.rs:86-88 | x is panned by twice the pixel delta over the width |
| Axes.Projection.MoveY | src/renderer.rs:90-92 | y is panned by minus twice the pixel delta over the height |
| Axes.Projection.ScrollX | src/renderer.rs:94-100 | x is zoomed by the factor around the pointer's x position |
| Axes.Projection.ScrollY | src/renderer.rs:102-108 | y is zoomed by the factor around the pointer's (flipped) y position |
| Axes.Projection.Matrix | src/renderer.rs:110-117 | the matrix is 4×4 |
| Axes.Projection.MatrixPlaces | src/renderer.rs:110-117 | the matrix sends (x, y, z, 1) to each coordinate placed on its axis, with w = 1 |
| Renderer.Prev | src/renderer.rs:353-357 | the previous column index is a valid index |
| Renderer.Next | src/renderer.rs:362-366 | the next column index is a valid index |
| Renderer.CyclingIsModular | src/renderer.rs:353-366 | previous and next are (i + m − 1) mod m and (i + 1) mod m |
| Renderer.NextUndoesPrev | src/renderer.rs:353-366 | next undoes previous and previous undoes next |
| Renderer.NextTimes | src/renderer.rs:362-366 | pressing next k times stays a valid index |
| Renderer.PrevTimes | src/renderer.rs:353-357 | pressing previous k times stays a valid index |
| Renderer.NextTimesWraps | src/renderer.rs:362-366 | k ≤ m presses of next land on i + k, wrapping past m − 1 to 0 |
| Renderer.PrevTimesWraps | src/renderer.rs:353-357 | k ≤ m presses of previous land on i − k, wrapping past 0 to m − 1 |
| Renderer.FullCycle | src/renderer.rs:353-366 | m presses in either direction return to the starting column |
| Renderer.LoadedColumnPlottable | src/data.rs:29-33 | a loaded column with a present value has finite extrema |
| Renderer.FitColumn | src/renderer.rs:62-84 | fitting an axis to a plottable column maps the column's range onto the axis's interval with a positive scale |
| Renderer.LowresSize | src/renderer.rs:201 | the low-resolution size is the floor of the size times LOWRES_FACTOR |
| Renderer.InitialView | src/renderer.rs:152-235 | the starting view satisfies every invariant of a view |
| Renderer.InitialViewFits | src/renderer.rs:155-195 | the start fits x and y to columns 0 and 1 and depth to column 2 (1 when there are two columns), and a single-valued column keeps scale 1 |
| Renderer.Restyled | src/renderer.rs:324-343 | B/J/K/N/M keep every invariant: gamma and point size stay in their clamps |
| Renderer.ResetView | src/renderer.rs:344-352 | R keeps every invariant |
| Renderer.ShowX | src/renderer.rs:353-370 | selecting a column for x keeps every invariant |
| Renderer.ShowY | src/renderer.rs:371-388 | selecting a column for y keeps every invariant |
| Renderer.ShowZ | src/renderer.rs:389-406 | selecting a column for depth keeps every invariant |
| Renderer.KeyStep | src/renderer.rs:320-408 | any key press keeps every invariant |
| Renderer.Step | src/renderer.rs:315-440 | any event keeps every invariant; the redraw request is set by the kind of event (`Redraws`: axis and style keys, a move with the button down, a scroll, a resize), even when the view ends up the same (J at the largest point size); only axis keys change the selected columns |
| Renderer.Run | src/renderer.rs:314-441 | a batch of events keeps every invariant |
| Renderer.RunAppend | src/renderer.rs:314-441 | handling two batches one after the other is handling their concatenation |
| Renderer.RunKeeps | src/renderer.rs:314-441 | a pending redraw survives any batch, and a batch without axis keys keeps the selected columns |
| Renderer.Handled | src/renderer.rs:314-323 | the handled events are a prefix of the batch that is either all of it or ends at the first quit event |
| Renderer.HandledStopsAtQuit | src/renderer.rs:314-323 | with no quit before position i: at the end the whole batch is handled and nothing quits; if event i quits, exactly the events up to and including it are handled |
| Renderer.KeyRefits | src/renderer.rs:344-406 | after a key, every axis it re-fits fits its column; every axis it does not re-fit keeps its column and projection; mouse and window size are untouched |
| Renderer.BTwice | src/renderer.rs:324-327 | pressing B twice restores the view, apart from the pending redraw |
| Renderer.ResetIdempotent | src/renderer.rs:344-352 | pressing R twice is pressing it once |
| Renderer.CycleXUndone | src/renderer.rs:353-370 | on a fitted x axis with a proper range, Right then Left (or Left then Right) restores the view, apart from the pending redraw |
| Renderer.PointerAloneNeverRedraws | src/renderer.rs:410-426 | a click without motion only leaves the button up; moving with the button up only records the position |
| Renderer.DragComposes | src/renderer.rs:416-426 | two drag moves equal one move to the final position, and dragging back to the start restores the view, apart from the redraw |
| Renderer.ScrollKeepsPointer | src/renderer.rs:427-431 | a scroll keeps the data value under the pointer on both axes, and keeps both scales at or above the floor |
| Renderer.ScrollUndone | src/renderer.rs:427-431 | scrolling by the inverse factors undoes a scroll while the floor is not hit |
| Renderer.PlanFrame | src/renderer.rs:255-297 | a frame clears the redraw request, draws into at most one texture, and shows the low-resolution texture iff the low-resolution flag is left set |
| Renderer.FrameDebounces | src/renderer.rs:255-297 | a pending redraw draws the low-resolution texture and restarts the debounce clock; otherwise the full texture is drawn iff the low-resolution picture is older than LOWRES_MILLIS; the low-resolution picture stays on screen until then |
| Renderer.QuietFramesDrawOnce | src/renderer.rs:275-292 | over quiet frames, the full texture is drawn once if some frame comes after the debounce delay while the low-resolution picture is shown, and never otherwise |
| Renderer.DebounceTimeline | src/renderer.rs:255-297 | redraw at 0 ms → low-resolution; still low-resolution at 500 ms; full-resolution drawn at 550 ms; nothing drawn afterwards |
| Renderer.SleepMillis | src/renderer.rs:448-456 | the sleep is at most one frame, tops a short frame up to exactly FRAME_MILLIS, and is 0 once a frame took that long |
| Renderer.FourCells | src/data.rs:29-33 | the extrema of four cells are the pushes folded in order |
| Renderer.ExamplePoints | src/data.rs:91-97 | for a three-column table, the points are its rows |
| Renderer.ExampleStart | src/renderer.rs:152-195 | for a three-column table, the start view fits each column to its axis interval, depth to the constant column with scale 1 |
| Renderer.ExampleResize | src/renderer.rs:432-438 | resizing to 400×300 gives an 80×60 low-resolution texture |
| Renderer.Renderer.constructor | src/renderer.rs:152-235 | the renderer starts in the initial view with its points built from columns (0, 1, 2 or 1), textures at the window size, a redraw pending and both clocks at now |
| Renderer.Renderer.RenderStep | src/renderer.rs:255-310 | performs the draws `PlanFrame` chooses, each the low- or full-resolution draw of the state before the frame, leaves the debounce clock as `PlanFrame` says, and shows the chosen texture with 1/gamma |
| Renderer.Renderer.DrawTargets | src/renderer.rs:258-290 | the low-resolution draw targets the texture of `LowresSize` of the window with a point size scaled below the current one; the full-resolution draw targets the window-sized texture with the point size inside its clamps |
| Renderer.Renderer.SelectX | src/renderer.rs:353-370 | Left/Right move x to the previous/next column and re-fit it |
| Renderer.Renderer.SelectY | src/renderer.rs:371-388 | Up/Down move y to the previous/next column and re-fit it |
| Renderer.Renderer.SelectZ | src/renderer.rs:389-406 | PageUp/PageDown move depth to the previous/next column and re-fit it |
| Renderer.Renderer.Restyle | src/renderer.rs:324-343 | B/J/K/N/M change the view exactly as `Restyled` |
| Renderer.Renderer.Reset | src/renderer.rs:344-352 | R changes the view exactly as `ResetView` |
| Renderer.Renderer.HandleKey | src/renderer.rs:319-408 | a key changes the view as `KeyStep`; it asks to quit iff it is Escape and to rebuild iff it selects a column |
| Renderer.Renderer.MovePointer | src/renderer.rs:416-426 | a pointer move changes the view as `Step` prescribes |
| Renderer.Renderer.Scroll | src/renderer.rs:427-431 | a wheel scroll changes the view as `Step` prescribes |
| Renderer.Renderer.Resize | src/renderer.rs:432-438 | a resize changes the view as `Step` prescribes and reallocates both textures at the new and the low-resolution size |
| Renderer.Renderer.HandleEvent | src/renderer.rs:315-440 | one event changes the view as `Step`; it quits iff the event is Closed or Escape and rebuilds iff it selects a column |
| Renderer.Renderer.PollEvents | src/renderer.rs:314-441 | handles events in order until the first quit event; the view is `Run` over the handled ones, and the columns are unchanged unless a rebuild is reported |
| Renderer.Renderer.HandleEvents | src/renderer.rs:313-447 | step 3 and step 4: quits iff the batch holds a quit event; the view is `Run` over the handled prefix; the points match the selected columns again unless it quits |
| Renderer.Renderer.Throttle | src/renderer.rs:449-457 | sleeps `SleepMillis` of the time since the last frame, and the next frame starts after the sleep |
| Renderer.Renderer.EndFrame | src/renderer.rs:312-457 | steps 3 to 5 of a frame: quits iff the batch holds a quit event, the view is `Run` over the handled prefix, and unless it quits it sleeps `SleepMillis` since the last frame |
| Renderer.Renderer.RunFrame | src/renderer.rs:239-458 | one pass of the main loop: performs the draws `PlanFrame` chooses from the state before the frame, shows its texture with the old 1/gamma and leaves the debounce clock as it says; handles events up to a quit, the view being `Run` over the handled prefix from the view with the redraw request cleared; and throttles |
| Standalone.ConstantsOrdered | src/main.rs:33-40 | gamma and point size defaults lie between positive clamps, and both change factors exceed 1 |
| Standalone.IsUintAndGeq100 | src/main.rs:43-56 | a string is accepted iff it parses as a u32 of at least 100; a rejection says "Number has to be at least 100" when it parses and "Not a positive number" otherwise |
| Standalone.ParseU32 | src/main.rs:44 | a parsed u32 is below 2^32 |
| Standalone.DecimalSpells | src/main.rs:44 | the decimal spelling of n is a non-empty digit string worth n, without a leading zero |
| Standalone.ParseDecimal | src/main.rs:44 | a decimal numeral parses to its value iff that value fits in 32 bits, with or without a leading '+' |
| Standalone.ParseRejectsSigns | src/main.rs:44 | the empty string, a lone '+' and any string starting with '-' do not parse |
| Standalone.ValidatorOnNumbers | src/main.rs:43-56 | a numeral is accepted iff 100 ≤ n < 2^32; smaller ones get "Number has to be at least 100", too large ones "Not a positive number" |
| Standalone.ValidatorAccepts | src/main.rs:43-56 | "800", "600" and "+0100" are accepted |
| Standalone.ValidatorRejects | src/main.rs:43-56 | "99" is too small; "-800", "8OO" and "" are not numbers |
| Standalone.Column.constructor | src/main.rs:67-74 | a new column has the given name, no data, min +∞ and max −∞ |
| Standalone.Column.Push | src/main.rs:76-80 | appends the value; missing values leave the extrema; the extrema are the least/greatest present values, or stay infinite while none is present |
| Standalone.NewColumns | src/main.rs:98-100 | one fresh, empty column per header, named after it, all distinct |
| Standalone.PushRecord | src/main.rs:108-116 | pushes a row through the parser alone; it fails iff the row does not read, with the same error |
| Standalone.PushRow | src/main.rs:103-116 | checks one row's width, then pushes it, in agreement with reading one more row |
| Standalone.ColumnsFromFile | src/main.rs:84-120 | fails iff `Load` with the bare parser fails, with the same error; on success gives distinct columns, each freshly allocated, whose snapshots are the loaded columns |
| Standalone.ReadersAgreeOnCells | src/main.rs:108-116 | two parsers that agree on a row's cells read it alike |
| Standalone.ReadersAgreeOnRows | src/main.rs:102-117 | two parsers that agree on every cell read the rows alike |
| Standalone.SameLoadWithoutTokens | src/main.rs:108-114 | on files without NA tokens, this loader and the one in `src/data.rs` give the same result |
| Standalone.TokensDiffer | src/main.rs:108-114 | an "NA" cell that the parser refuses is an error here ("column 2, row 1") but missing in `src/data.rs` |
| Standalone.Zip2 | src/main.rs:123-127 | as many points as the shorter column, point i holding the i-th cells |
| Standalone.PointsFromColumns | src/main.rs:122-128 | points as long as the shorter of the two columns, point i built from row i of each |
| Standalone.Projection.constructor | src/main.rs:150-157 | a new projection is the identity on both axes |
| Standalone.Projection.AdjustX | src/main.rs:159-165 | x becomes the old x fitted to [min, max] over [-1, 1] |
| Standalone.Projection.AdjustY | src/main.rs:167-173 | y becomes the old y fitted to [min, max] over [-1, 1] |
| Standalone.Projection.Matrix | src/main.rs:175-182 | the matrix is 4×4 |
| Standalone.Projection.MatrixPlaces | src/main.rs:175-182 | the matrix places x and y on their axes and passes z and w = 1 through |
| Standalone.Step | src/main.rs:320-352 | a quit event changes nothing; a resize to (w, h) sets the window size to (w, h), and nothing else changes it; only a key changes gamma and point size |
| Standalone.Run | src/main.rs:320-352 | a batch without resizes keeps the window size, and one without key presses keeps gamma and point size |
| Standalone.StepStaysInRange | src/main.rs:330-341 | one event keeps gamma and point size inside their clamps |
| Standalone.RunStaysInRange | src/main.rs:320-352 | any batch of events keeps gamma and point size inside their clamps |
| Standalone.PressesAtBounds | src/main.rs:330-341 | J at the largest point size, K at the smallest, N at the largest gamma and M at the smallest change nothing |
| Standalone.SizeFollowsLastResize | src/main.rs:344-347 | after a batch, the window size is that of its last resize |
| Standalone.PointsizeFollowsPresses | src/main.rs:320-352 | after a batch, the point size is the J/K presses of the batch applied in order; no other event touches it |
| Standalone.GammaFollowsPresses | src/main.rs:320-352 | after a batch, gamma is the N/M presses of the batch applied in order; no other event touches it |
| Standalone.Viewer.constructor | src/main.rs:222-287 | the viewer starts with points from columns 0 and 1, default gamma and point size, the given window size, and both axes fitted to their columns |
| Standalone.Viewer.HandleEvent | src/main.rs:321-351 | one event changes gamma, point size and window size as `Step`, and quits iff it is Closed or Escape |
| Standalone.Viewer.PollEvents | src/main.rs:320-352 | handles events in order until the first quit event, and the state is `Run` over the handled ones |
| Standalone.Viewer.Draw | src/main.rs:291-317 | the frame draws into the window-sized texture with the point size inside its clamps and 1/gamma inside the clamps of the inverse gamma |
| Standalone.Viewer.RunFrame | src/main.rs:290-353 | one pass of the loop draws every point with the current matrix and point size into the current texture, shows it with 1/gamma, and quits iff a quit event arrives; the state is `Run` over the events up to and including the first quit |

## Left out

- The GPU, the window system, and the GLSL shaders. A draw is recorded as a value naming its texture, matrix, point count, point size and border flag; the shaders are not part of this model.
- Texture reallocation is recorded as the texture's size. Failures of GPU allocation (`unwrap` panics) are not modelled.
- Opening and parsing the CSV file. The loaders take the header row and the records as strings, so the "cannot open file!" error and malformed CSV (`row.unwrap()` panics) are not modelled.
- Rust's `f32` parser: the loaders take it as a function parameter returning an optional cell. The parser reading "NaN" yields a missing cell.
- IEEE single-precision rounding: all float arithmetic is on reals. NaN is the `Missing` cell. Infinite cells are outside the model: Rust's `f32` parser turns "inf" or "1e39" into ±∞, but a cell here is a real number, so ±∞ appear only as the starting extrema of a column.
- `SCROLL_BASE.powf(d)`: a wheel event carries its zoom factor, which is positive.
- `inv_n`: the draw records the point count n rather than 1/n as f32.
- `((w as f32) * LOWRES_FACTOR) as u32`: modelled as `w / 5` in integers, which `LowresSize` proves is the floor of w × 0.2 in exact arithmetic.
- Renderer.Step: pointer positions are non-negative, scroll factors positive and window sizes non-zero (`WellFormed`). So the `posx as u32` wrap of a negative position, a zero-size window's division by zero and a NaN zoom factor are not modelled.
- Renderer.InitialView: every column must have a present value (`Fittable`). A column whose cells are all missing keeps infinite extrema, and fitting to it would make the projection NaN. The code has no guard, and the model follows the code.
- Standalone.Viewer.constructor: requires finite extrema on columns 0 and 1 for the same reason.
- Renderer.Renderer.PollEvents: also reports rebuilds, but its contract states only that no rebuild means unchanged columns. `HandleEvents` states the rebuilt points outright.
- Standalone.IsUintAndGeq100: the u32 parser is modelled as digits with an optional leading '+'. Other spellings Rust might accept or refuse are not.
- The `main` functions' argument parsing (clap, the default sizes 800×600, the required file argument), logging, and the early return on a load error are not part of this model.
- `Instant::now()` and `thread::sleep` are integer millisecond parameters. The sleep is taken to last exactly as long as asked, so the next frame starts when the sleep ends.
- Unicode lowercasing in `is_na_string` is modelled for ASCII letters. Non-ASCII letters are lowercased by the source but cannot lower to "na".
- `src/main.rs` computes `m`, `column_x` and `column_y` but never changes them, and its points use a u32 count. The count is a `nat` here.
