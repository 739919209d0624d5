# Strip chart, gauge and sensor drivers of a temperature/pressure logger

This project models the display widgets and sensor drivers of a small
Arduino data logger that plots thermocouple and pressure readings on a
UTFT colour display:

- `CGraph`, a scrolling strip chart. Each `addData(t, val)` draws only what
  changed since the last sample. It paints an eraser window ahead of the
  cursor, draws dashed X and Y grids up to the new column, and wraps
  around at the right edge with an interpolated edge segment. The chart
  also has Wu's anti-aliased line routine `drawAALine`, with 16-bit
  fixed-point error accumulation.
- `CProgressBar`, a horizontal gauge that redraws incrementally. It can
  grow out of a baseline column and turns to an alert colour past a
  threshold column.
- The MAX31855 thermocouple decoder, which turns a 32-bit SPI frame into a
  14-bit signed temperature in quarter degrees or a fault value.
- The MPX4250 pressure reader, which holds the last good ADC reading while
  a saturating counter tracks faults, and converts readings to pascal.

The display is `Display.Surface`, an append-only log of the driver calls
(`setColor`, `drawPixel`, `drawLine`, `drawRect`, `fillRect`). Every
drawing method is proved to append exactly the commands that a pure
specification function of the widget state computes. Those functions live
in `ChartSpec`, `AntiAlias` and `GaugeSpec`, and the lemmas beside them
prove what the drawings are meant to achieve. C arithmetic is written out
explicitly in `CArith`:

- `(int)` truncation of floats;
- truncating `/` and `%`;
- `constrain`, `min`, `max` and `map`.

Floats are exact reals.

## Model

| member | source | states |
|---|---|---|
| CArith.Trunc | lib/UTFTGui/CGraph.cpp:107 | the C `(int)` cast rounds toward zero: for `r >= 0` the result is the largest integer at most `r`, for `r <= 0` the smallest at least `r` |
| CArith.CDiv | lib/CMPX4250/CMPX4250.cpp:37 | C `/` by a positive divisor truncates: the quotient times the divisor lies within one divisor of the dividend, on the side of zero |
| CArith.CRem | lib/UTFTGui/CGraph.cpp:176 | C `%` by a positive divisor: `a == CDiv(a, b) * b + r`, with `r` in `[0, b)` for `a >= 0` and in `(-b, 0]` for `a < 0` |
| CArith.ArduinoMap | lib/UTFTGui/CGraph.cpp:387-389 | Arduino's `map` with C division (no contract of its own; `MapEndpoints` states its properties) |
| CArith.Constrain | lib/UTFTGui/CGraph.cpp:114 | `constrain` returns the bound an out-of-range value falls past and a value inside the range unchanged |
| CArith.MapEndpoints | lib/UTFTGui/CGraph.cpp:387-389 | `map` with C division sends the input ends to the output ends and a point between them to a value between them |
| ChartSpec.WrapTime | lib/UTFTGui/CGraph.cpp:104 | the wrapped time of a non-negative `t` lies in `[0, xf - x0)`, and a time already in the window is unchanged |
| ChartSpec.Column | lib/UTFTGui/CGraph.cpp:107 | the projected column never passes `maxX` and is at least `minX` for a non-negative time |
| ChartSpec.Row | lib/UTFTGui/CGraph.cpp:113 | the unclamped row of a value, by the `(int)` cast of its share of `dY` below `yf` (no contract of its own; `RowRange` states its properties) |
| ChartSpec.RowRange | lib/UTFTGui/CGraph.cpp:113 | `yf` maps to the top row `minY`, `y0` to the bottom row `maxY`, and values between them to rows between them |
| ChartSpec.SkipTo | lib/UTFTGui/CGraph.cpp:127 | skipping grid positions stops at the first one at or past the last plotted time, less than one interval beyond it |
| ChartSpec.DescendSpec | lib/UTFTGui/CGraph.cpp:410 | the downward search stays on the grid and stops no more than one interval above `y0` |
| ChartSpec.AscendSpec | lib/UTFTGui/CGraph.cpp:411 | the upward search stays on the grid and stops at the first grid value at or above `y0` |
| ChartSpec.SearchedStart | lib/UTFTGui/CGraph.cpp:409-411 | the search as written, for a positive interval, ends on a multiple of the interval in `[y0, y0 + ival]` |
| ChartSpec.DescendToSpec | lib/UTFTGui/CGraph.cpp:410 | the downward search with `>=` stays on the grid, never ends below `y0` when it starts at or above it, and ends less than one interval above `y0` |
| ChartSpec.GridStart | lib/UTFTGui/CGraph.cpp:404-412 | the first Y-grid value, as the comment at line 408 promises: a multiple of the interval in `[y0, y0 + ival)`, or 0 when the grid is off |
| ChartSpec.GridStartIsLowest | lib/UTFTGui/CGraph.cpp:408 | no multiple of the interval at or above `y0` lies below `GridStart` |
| ChartSpec.SearchMissesNegativeFloor | lib/UTFTGui/CGraph.cpp:410 | the search as written differs from `GridStart` exactly when `y0` is a negative multiple of the interval, and then starts one interval above `y0` |
| ChartSpec.NegativeFloorExample | lib/UTFTGui/CGraph.cpp:410 | for `y0 = -1` and interval 0.5 the search as written gives -0.5, the lowest grid value is -1 |
| ChartSpec.ZeroIntervalNeverSettles | lib/UTFTGui/CGraph.cpp:404-412 | with interval 0 and `y0 != 0` the search as written never finishes, however many steps it is given |
| ChartSpec.GridStartAsWrittenAgrees | lib/UTFTGui/CGraph.cpp:409-411 | for a positive interval the loops as written finish and give exactly `SearchedStart` |
| ChartSpec.DashesShape | lib/UTFTGui/CGraph.cpp:139-144 | an X-grid tick is a run of 2-pixel vertical segments every 4 rows, all within the area |
| ChartSpec.XTicksShape | lib/UTFTGui/CGraph.cpp:129-148 | every command of the X-grid loop sets the grid colour or draws a dash on rows inside the area, in a column no further right than `maxX`; from a non-negative time on, no further left than `minX` |
| ChartSpec.XGridShape | lib/UTFTGui/CGraph.cpp:121-149 | the X grid draws nothing but grid-coloured dashes on rows inside the area, never right of `maxX`, and inside the area altogether when `x0 >= 0` |
| ChartSpec.NegativeStartTickLeftOfArea | lib/UTFTGui/CGraph.cpp:104-134 | with `x0 = -5` the first X-grid column lies left of `minX`, since times are wrapped into `[0, xf - x0)` but the grid starts at `x0` |
| ChartSpec.SweepExact | lib/UTFTGui/CGraph.cpp:192-200 | a Y-grid sweep draws exactly the dash columns (`(col - minX) % 4` is 0 or 1) of its range, on its row |
| ChartSpec.YSweepsExact | lib/UTFTGui/CGraph.cpp:168-200 | a Y-grid row is drawn on exactly the dash columns between the old and the new cursor, wrapping around the right edge |
| ChartSpec.YRowsShape | lib/UTFTGui/CGraph.cpp:158-204 | every command of the Y-grid loop sets the grid colour or plots a dash pixel on a covered column |
| ChartSpec.YGridShape | lib/UTFTGui/CGraph.cpp:152-205 | the Y grid plots only dash pixels on columns the cursor moved across |
| ChartSpec.XGridCmds | lib/UTFTGui/CGraph.cpp:121-149 | the X-grid commands of one sample (no contract of its own; `XGridShape` states its properties) |
| ChartSpec.YGridCmds | lib/UTFTGui/CGraph.cpp:152-205 | the Y-grid commands of one sample (no contract of its own; `YGridShape` and `YSweepsExact` state their properties) |
| ChartSpec.SegmentCmds | lib/UTFTGui/CGraph.cpp:207-264 | the plotted segment of one sample (no contract of its own; `FirstSample` and `WrapAround` state its properties) |
| ChartSpec.AddDataCmds | lib/UTFTGui/CGraph.cpp:96-264 | everything `addData` draws (no contract of its own; `AddDataSameColumn` and the grid and segment lemmas state its properties) |
| ChartSpec.AddDataSameColumn | lib/UTFTGui/CGraph.cpp:104-110 | a sample in the column last drawn draws nothing and leaves the chart unchanged, and only such a sample does; any sample moves the cursor to its column |
| ChartSpec.AddDataNext | lib/UTFTGui/CGraph.cpp:207-268 | `addData` keeps the frame, colours, eraser and grid settings, keeps a moved cursor inside the area, and counts a wrap only when the cursor moves left |
| ChartSpec.FirstSample | lib/UTFTGui/CGraph.cpp:207-215 | the first sample draws the grids and then one pixel in the line colour at the clamped cursor |
| ChartSpec.WrapAround | lib/UTFTGui/CGraph.cpp:218-244 | on wrap-around the eraser clears from `minX`, the old segment runs to the right edge at the interpolated row (inside the area, with a non-zero divisor), and the new one starts from the left edge at that row |
| StripChart.LowestGridLine | lib/UTFTGui/CGraph.cpp:409-411 | the two search loops, the downward one testing `>=` (the corrected half of the second Findings row), compute `GridStart`: on the grid, in `[y0, y0 + ival)` |
| StripChart.Graph.constructor | lib/UTFTGui/CGraph.cpp:41-80 | the area is the frame less a 1-pixel border, and the eraser, cursor, grid and colour defaults are as in the source |
| StripChart.Graph.SetAxisColor | lib/UTFTGui/CGraph.cpp:4-9 | sets the axis colour and nothing else |
| StripChart.Graph.SetBackgroundColor | lib/UTFTGui/CGraph.cpp:13-18 | sets the background colour and nothing else |
| StripChart.Graph.SetLineColor | lib/UTFTGui/CGraph.cpp:22-27 | sets the line colour and nothing else |
| StripChart.Graph.SetGridColor | lib/UTFTGui/CGraph.cpp:31-36 | sets the grid colour and nothing else |
| StripChart.Graph.SetXGridInterval | lib/UTFTGui/CGraph.cpp:397-400 | sets the X-grid interval and nothing else |
| StripChart.Graph.SetYGridInterval | lib/UTFTGui/CGraph.cpp:404-412 | sets the Y-grid interval and its first grid value `GridStart` (the corrected halves of both Findings rows) |
| StripChart.Graph.SetEraserPixelWidth | lib/UTFTGui/CGraph.cpp:416-419 | sets the eraser width and nothing else |
| StripChart.Graph.SetCursor | lib/UTFTGui/CGraph.h:65 | sets the cursor flag and nothing else |
| StripChart.Graph.RedrawAxis | lib/UTFTGui/CGraph.cpp:84-92 | clears the area in the background colour and outlines the frame in the axis colour |
| StripChart.Graph.AddData | lib/UTFTGui/CGraph.cpp:96-270 | appends exactly `AddDataCmds` (grids, then the segment) and moves to `AddDataNext` |
| StripChart.Graph.Locate | lib/UTFTGui/CGraph.cpp:100-113 | computes the wrapped time, the column inside the area and the unclamped row |
| StripChart.Graph.DrawSegment | lib/UTFTGui/CGraph.cpp:207-268 | draws the first pixel, the wrap-around or the advance segment, sets the cursor colour, and records the new cursor |
| StripChart.Graph.DrawWrap | lib/UTFTGui/CGraph.cpp:218-244 | counts the wrap modulo 256 and draws the eraser and the two edge segments through `EdgeRow` |
| StripChart.Graph.DrawAdvance | lib/UTFTGui/CGraph.cpp:246-258 | erases ahead of the cursor when the window fits or the cursor is on, then draws the segment |
| StripChart.Graph.DrawXGrid | lib/UTFTGui/CGraph.cpp:121-149 | the X-grid loops append exactly `XGridCmds` |
| StripChart.Graph.FirstXGridTime | lib/UTFTGui/CGraph.cpp:123-127 | the skip loop finds `SkipTo(x0, oldValX, interval)` |
| StripChart.Graph.DrawXTick | lib/UTFTGui/CGraph.cpp:134-144 | one X-grid line: the grid colour, then the dashes of its column |
| StripChart.Graph.DrawDashes | lib/UTFTGui/CGraph.cpp:139-144 | the dash loop appends exactly `Dashes` |
| StripChart.Graph.DrawYGrid | lib/UTFTGui/CGraph.cpp:152-205 | the Y-grid loop appends exactly `YGridCmds` |
| StripChart.Graph.DrawYGridLine | lib/UTFTGui/CGraph.cpp:160-200 | one Y-grid row: the grid colour, then the sweeps between the old and the new cursor |
| StripChart.Graph.DrawDashRow | lib/UTFTGui/CGraph.cpp:192-200 | the pixel loop appends exactly `Sweep` |
| StripChart.Graph.DrawAAPixel | lib/UTFTGui/CGraph.cpp:382-393 | sets the colour blended by `map` between line and background, then plots the pixel |
| StripChart.Graph.DrawAALine | lib/UTFTGui/CGraph.cpp:275-378 | appends exactly the rendering of `PlanOf` for the endpoints |
| StripChart.Graph.DrawOrdered | lib/UTFTGui/CGraph.cpp:289-378 | for a top-to-bottom line: the first pixel, then one `drawLine` for a straight line or the shaded steps and the end pixel |
| StripChart.Graph.ShadeSteps | lib/UTFTGui/CGraph.cpp:318-377 | picks the major axis, computes `ErrorAdj` and draws the shaded steps of `LineSteps` |
| StripChart.Graph.ShadeYMajor | lib/UTFTGui/CGraph.cpp:326-352 | the Y-major loop draws `StepsFrom` for all pixels between the endpoints |
| StripChart.Graph.ShadeRow | lib/UTFTGui/CGraph.cpp:333-346 | one Y-major iteration: 16-bit accumulator wrap, the x step on carry, the two weighted pixels |
| StripChart.Graph.ShadeXMajor | lib/UTFTGui/CGraph.cpp:354-377 | the X-major loop draws `StepsFrom` for all pixels between the endpoints |
| StripChart.Graph.ShadeColumn | lib/UTFTGui/CGraph.cpp:360-373 | one X-major iteration: 16-bit accumulator wrap, the y step on carry, the two weighted pixels |
| AntiAlias.ComplementIsXor | lib/UTFTGui/CGraph.cpp:343-346 | `Weighting ^ 0xFF` on an 8-bit weight is `255 - Weighting` |
| AntiAlias.Mix | lib/UTFTGui/CGraph.cpp:387-389 | one colour channel of `drawAAPixel`: weight 0 gives the line channel and weight 255 the background channel |
| AntiAlias.MixBetween | lib/UTFTGui/CGraph.cpp:387-389 | a blended channel lies between the line and the background channel |
| AntiAlias.Blend | lib/UTFTGui/CGraph.cpp:382-393 | weight 0 gives the line colour and weight 255 the background |
| AntiAlias.ErrorAdj | lib/UTFTGui/CGraph.cpp:326-330 | the 16-bit fraction per major step is positive, below 1, and truncated so that it never overshoots `minor / major` |
| AntiAlias.StepAt | lib/UTFTGui/CGraph.cpp:332-347 | each step shades two neighbouring pixels, side by side on the minor axis, whose weights sum to 255 |
| AntiAlias.YMajorNext | lib/UTFTGui/CGraph.cpp:332-347 | the Y-major loop body advances `StepAt` by one: accumulator wrap, carry into x, and the two shades |
| AntiAlias.XMajorNext | lib/UTFTGui/CGraph.cpp:359-374 | the X-major loop body advances `StepAt` by one: accumulator wrap, carry into y, and the two shades |
| AntiAlias.ClosedForm | lib/UTFTGui/CGraph.cpp:333-338 | after `k` steps the accumulator is `k*adj mod 65536` and the carries are `k*adj div 65536` |
| AntiAlias.BehindIdeal | lib/UTFTGui/CGraph.cpp:327-330 | because `ErrorAdj` is truncated, the minor coordinate never runs ahead of the ideal line |
| AntiAlias.CarryBelowMinor | lib/UTFTGui/CGraph.cpp:332-338 | the minor coordinate never reaches the far endpoint before the last step |
| AntiAlias.Render | lib/UTFTGui/CGraph.cpp:275-378 | the commands of a planned line (no contract of its own; `EndpointsInLineColour`, `StepsDrawPixelsOnly` and `OneLineIffStraight` state its properties) |
| AntiAlias.PlanOf | lib/UTFTGui/CGraph.cpp:284-317 | the line runs top to bottom, is drawn with one `drawLine` exactly when it is horizontal, vertical or diagonal, and otherwise has one shaded step per pixel between the endpoints |
| AntiAlias.StepsInBox | lib/UTFTGui/CGraph.cpp:326-374 | every shaded pixel lies inside the bounding box of the endpoints |
| AntiAlias.EndpointsInLineColour | lib/UTFTGui/CGraph.cpp:291-377 | the first pixel is plotted in the line colour, and so is the last one of a shaded line |
| AntiAlias.StepsDrawPixelsOnly | lib/UTFTGui/CGraph.cpp:344-346 | the shaded part draws only colours and single pixels |
| AntiAlias.OneLineIffStraight | lib/UTFTGui/CGraph.cpp:300-317 | the rendering contains a `drawLine` exactly when the line is horizontal, vertical or diagonal |
| AntiAlias.NearPixelsConnected | lib/UTFTGui/CGraph.cpp:332-347 | consecutive near pixels are 8-connected and move forward along y by 0 or 1 |
| GaugeSpec.WithMargin | lib/UTFTGui/CProgressBar.cpp:198-207 | `minX = x+m+1`, `maxX = x+w-m-2`, `minY = y+m+1` and `maxY = y+h-m-2`, with nothing else changed |
| GaugeSpec.Interpolate | lib/UTFTGui/CProgressBar.cpp:81-84 | `interpolate` with the C `(int)` cast (no contract of its own; `InterpolateEnds` and `InterpolateMonotone` state its properties) |
| GaugeSpec.InterpolateEnds | lib/UTFTGui/CProgressBar.cpp:81-84 | `interpolate(x0) = minX - 1` and `interpolate(xf) = maxX` |
| GaugeSpec.InterpolateMonotone | lib/UTFTGui/CProgressBar.cpp:81-84 | for a rising range, a larger value never gets an earlier column |
| GaugeSpec.InitialState | lib/UTFTGui/CProgressBar.cpp:6-43 | a new gauge has margin 1, nothing drawn, no baseline, the maximum alert column at or past `maxX` and the minimum one before `minX` |
| GaugeSpec.WithBase | lib/UTFTGui/CProgressBar.cpp:47-61 | a baseline column inside the area becomes both the baseline and the drawn column; otherwise there is no baseline and the bar is empty |
| GaugeSpec.PaintConcat | lib/UTFTGui/CProgressBar.cpp:106-116 | two runs of fills painted one after the other are the paint of their concatenation |
| GaugeSpec.PaintSpans | lib/UTFTGui/CProgressBar.cpp:108-168 | every painted command sets a colour or fills exactly the rows of the area, and a column is filled exactly when a band covers it |
| GaugeSpec.Column | lib/UTFTGui/CProgressBar.cpp:93-94 | the projected column lies in `[minX - 1, maxX + 1]` and is `interpolate(val)` whenever that already does |
| GaugeSpec.UpdateCmds | lib/UTFTGui/CProgressBar.cpp:88-175 | the commands of `update` (no contract of its own; `UpdateFillsArea`, `UpdateKeepsBaseline`, `BaselineUpdateExact`, `GrowWithoutBaseline` and `ShrinkWithoutBaseline` state its properties) |
| GaugeSpec.UpdateNext | lib/UTFTGui/CProgressBar.cpp:93-174 | `update` changes only the last value and column, keeps the column in `[minX-1, maxX+1]`, and keeps it at least `minX` in baseline mode |
| GaugeSpec.UpdateSameColumn | lib/UTFTGui/CProgressBar.cpp:93-96 | a value that projects onto the last drawn column draws nothing and changes nothing |
| GaugeSpec.UpdateFillsArea | lib/UTFTGui/CProgressBar.cpp:108-168 | every fill of `update` spans exactly the rows `[minY, maxY]` |
| GaugeSpec.UpdateKeepsBaseline | lib/UTFTGui/CProgressBar.cpp:98-146 | in baseline mode no fill of `update` covers the baseline column |
| GaugeSpec.BaselineUpdateExact | lib/UTFTGui/CProgressBar.cpp:98-146 | in baseline mode the bar colour goes exactly on the columns the bar gains, the background exactly on those it loses, and nothing else is drawn (outside the one case below) |
| GaugeSpec.BaselineFloorErasesBar | lib/UTFTGui/CProgressBar.cpp:96-143 | a bar ending at `minX` below the baseline gets columns `minX - 1` to `minX` erased by a value below the range, although its new end is still `minX` |
| GaugeSpec.GrowWithoutBaseline | lib/UTFTGui/CProgressBar.cpp:157-170 | growing paints the bar colour only before `maxAlertX` and the alert colour only from it on, and covers exactly `(old, new]` |
| GaugeSpec.ShrinkWithoutBaseline | lib/UTFTGui/CProgressBar.cpp:149-155 | shrinking erases exactly `(new, old]`, or nothing (and changes nothing) when the bar is empty |
| GaugeSpec.RedrawCmds | lib/UTFTGui/CProgressBar.cpp:179-194 | the commands of `redraw` (no contract of its own; `RedrawShape` states its properties) |
| GaugeSpec.RedrawShape | lib/UTFTGui/CProgressBar.cpp:179-194 | `redraw` outlines the rectangle, clears exactly the area, and draws one frame-coloured line at `baseX`, which is column -1 when there is no baseline |
| GaugeSpec.BaselineStaysMarked | lib/UTFTGui/CProgressBar.cpp:187-193 | after a baseline is set, a redraw marks it and no later update draws over it |
| Gauge.ProgressBar.constructor | lib/UTFTGui/CProgressBar.cpp:6-43 | the new gauge's state is `Initial` |
| Gauge.ProgressBar.SetMargin | lib/UTFTGui/CProgressBar.cpp:198-207 | the state becomes `WithMargin` |
| Gauge.ProgressBar.SetBaseValue | lib/UTFTGui/CProgressBar.cpp:47-61 | the state becomes `WithBase` |
| Gauge.ProgressBar.SetMaxAlert | lib/UTFTGui/CProgressBar.cpp:65-69 | records the maximum alert value and its column |
| Gauge.ProgressBar.SetMinAlert | lib/UTFTGui/CProgressBar.cpp:73-77 | records the minimum alert value and its column |
| Gauge.ProgressBar.Update | lib/UTFTGui/CProgressBar.cpp:88-175 | appends exactly `UpdateCmds` and moves to `UpdateNext` |
| Gauge.ProgressBar.UpdateBaseline | lib/UTFTGui/CProgressBar.cpp:102-145 | the baseline branches append exactly the fills of `BaselineBands` |
| Gauge.ProgressBar.UpdateGrow | lib/UTFTGui/CProgressBar.cpp:157-170 | the growing branch appends exactly the fills of `GrowBands` |
| Gauge.ProgressBar.Redraw | lib/UTFTGui/CProgressBar.cpp:179-194 | appends exactly `RedrawCmds` |
| PressureSensor.NextCounter | lib/CMPX4250/CMPX4250.cpp:15-21 | the fault counter moves by one step or stays at 0 |
| PressureSensor.HeldReading | lib/CMPX4250/CMPX4250.cpp:15-23 | the result is the last reading or the new one, and always the new one when it is in range |
| PressureSensor.Mpx4250.constructor | lib/CMPX4250/CMPX4250.h:21 | a new sensor has counter 0 and last reading 41 |
| PressureSensor.Mpx4250.GetRawValue | lib/CMPX4250/CMPX4250.cpp:9-24 | a refused reading returns the held value and counts a fault; any other reading is stored and returned, and the counter drops towards 0 |
| PressureSensor.Mpx4250.GetPressure | lib/CMPX4250/CMPX4250.cpp:31-38 | the pressure is that of the reading `getRawValue` returns |
| PressureSensor.FaultsCount | lib/CMPX4250/CMPX4250.cpp:15-19 | consecutive out-of-range readings below saturation each add one to the counter |
| PressureSensor.FaultBurstRaisesError | lib/CMPX4250/CMPX4250.cpp:45-51 | from counter 0, a burst of out-of-range readings raises the error state exactly when it is 32 long or longer |
| PressureSensor.SaturatedCounterAcceptsReading | lib/CMPX4250/CMPX4250.cpp:15-23 | at counter 255 any reading is accepted and the counter drops to 254 |
| PressureSensor.PressureOf | lib/CMPX4250/CMPX4250.cpp:37 | the conversion with `long` arithmetic and C division (no contract of its own; `PressureEndpoints`, `PressureInBand` and `PressureProductFitsLong` state its properties) |
| PressureSensor.Mpx4250.ErrorState | lib/CMPX4250/CMPX4250.cpp:45-51 | `errorState` holds when the counter exceeds 0x1F (no contract of its own; `FaultBurstRaisesError` and `FreshSensorFirstFault` state its properties) |
| PressureSensor.PressureEndpoints | lib/CMPX4250/CMPX4250.cpp:37 | reading 41 gives 0 Pa and reading 1003 gives 260000 Pa |
| PressureSensor.PressureInBand | lib/CMPX4250/CMPX4250.cpp:37 | for readings in `[41, 1003]` the pressure is in `[0, 260000]` and does not decrease as the reading grows |
| PressureSensor.PressureProductFitsLong | lib/CMPX4250/CMPX4250.cpp:37 | the product in the conversion fits a 32-bit `long` for every 10-bit reading |
| PressureSensor.FreshSensorFirstFault | lib/CMPX4250/CMPX4250.cpp:15-18 | a fresh sensor's first out-of-range reading gives 0 Pa and no error |
| Thermocouple.TempField | lib/CMAX31855/CMAX31855.cpp:73-75 | bits 31..18 form a 14-bit field |
| Thermocouple.SignExtend14 | lib/CMAX31855/CMAX31855.cpp:71-79 | the sign-extended value lies in `[-8192, 8191]` and agrees with the field modulo 2^14 |
| Thermocouple.DecodeRaw | lib/CMAX31855/CMAX31855.cpp:61-81 | a set fault bit gives -32000; otherwise the result is the sign-extended 14-bit field |
| Thermocouple.Int16Of | lib/CMAX31855/CMAX31855.cpp:78 | the `int16_t` reading of a 16-bit pattern (no contract of its own; `SignExtension` states what it gives on the decoder's patterns) |
| Thermocouple.SignExtension | lib/CMAX31855/CMAX31855.cpp:71-79 | the `0xC000` OR and the 16-bit reinterpretation sign-extend the field, and the sign bit is bit 31 |
| Thermocouple.FrameIsLittleEndian | lib/CMAX31855/CMAX31855.cpp:52-55 | the first byte received becomes bits 31..24 of the word |
| Thermocouple.DecodeRange | lib/CMAX31855/CMAX31855.cpp:71-76 | a non-fault result lies in `[-8192, 8191]` and is negative exactly when bit 31 is set |
| Thermocouple.FaultDominates | lib/CMAX31855/CMAX31855.cpp:62-66 | with the fault bit set, the other bits do not matter |
| Thermocouple.IgnoredBits | lib/CMAX31855/CMAX31855.cpp:71-76 | bits 17 and 15..0 never affect a non-fault result |
| Thermocouple.Celsius | lib/CMAX31855/CMAX31855.cpp:17-25 | `getCelsius`: a quarter degree per unit (no contract of its own; `CelsiusRange` states its range) |
| Thermocouple.CelsiusRange | lib/CMAX31855/CMAX31855.cpp:17-25 | a fault reads as -8000 °C; any other result lies in `[-2048, 2047.75]` °C |
| Thermocouple.Max31855.constructor | lib/CMAX31855/CMAX31855.cpp:9-13 | a new driver reports no error |
| Thermocouple.Max31855.GetRawValue | lib/CMAX31855/CMAX31855.cpp:29-82 | records the fault bit as the error state and returns the decoded frame |
| Thermocouple.Max31855.GetCelsius | lib/CMAX31855/CMAX31855.cpp:17-25 | returns a quarter degree per unit of the decoded frame |

## Left out

- Hardware I/O is not modelled. This covers SPI transactions, chip-select
  and pin set-up, `delayMicroseconds`, the `millis` timestamp of the
  thermocouple driver, and `analogRead`. The received bytes and the ADC
  value are parameters instead.
- The UTFT driver is recorded only as a log of its calls. Rasterisation
  and what a call does to pixels are not modelled.
- Floats are exact reals with C truncation (`Trunc`). IEEE rounding and
  the loss of precision in the time wrap and projections are not modelled.
- Integers are unbounded. The 16-bit `int` of the AVR target is not
  modelled for screen coordinates. The `uint16_t` accumulator and the
  `int16_t` line deltas of `drawAALine` are modelled:
  - the accumulator wraps modulo 65536;
  - `StripChart.Graph.DrawAALine` requires both deltas to be at most
    0x7FFF.
- The application in src/main.cpp is not part of this model: wiring,
  timing, text output and the demos. lib/UTFTGui/CTextDisplay.h is not
  modelled (declarations only), and neither is `setGrid`, which is
  declared but never defined.
- The cursor overlay in `addData` only sets a colour, because its
  `drawLine` is commented out. The model records that one `setColor`.
- `addData` is modelled as several methods (`Locate`, `DrawSegment`,
  `DrawWrap`, `DrawAdvance` and the grid helpers). The splits run the
  source's statements in the source's order. The same holds for
  `drawAALine` (`DrawOrdered`, `ShadeSteps`, `ShadeYMajor`/`ShadeRow`,
  `ShadeXMajor`/`ShadeColumn`) and for `update` (`UpdateBaseline`,
  `UpdateGrow`).
- StripChart.Graph.AddData: requires `t >= 0`, since the sketch passes
  `millis`-based times. The `(int)` of a negative quotient in the wrap is
  not explored.
- StripChart.Graph.SetXGridInterval: requires a non-negative interval. A
  negative one can make the X-grid loop in `addData` run forever.
- StripChart.Graph.SetYGridInterval: requires a non-negative interval. A
  negative one makes the search loops run forever.
- The X-grid dashes are proved to lie inside the area only for a time
  axis starting at `x0 >= 0`. With `x0 < 0` the first grid column falls
  left of `minX`, as `NegativeStartTickLeftOfArea` shows; the model draws
  it there, as the source does.
- StripChart.Graph.constructor: requires `w >= 3`, `h >= 3`, `x0 < xf`
  and `y0 < yf`. These keep the drawable area and both value ranges
  non-empty, so the projections never divide by zero.
- Gauge.ProgressBar.constructor: requires `x0 != xf`, so that
  `interpolate` never divides by zero. `InterpolateMonotone` and
  `InitialState` are stated for rising ranges (`x0 < xf`) only.
- GaugeSpec.BaselineUpdateExact: leaves out the one case that
  `BaselineFloorErasesBar` describes.
- Gauge.ProgressBar.Update and Gauge.ProgressBar.Redraw follow the source
  as written:
  - the no-op test comes before the clamp to `minX` in baseline mode (see
    `BaselineFloorErasesBar`);
  - `redraw` tests `baseX >= -1`, which every state passes, so a gauge
    without a baseline gets a frame-coloured line at column -1 (see
    `RedrawShape`).

## Findings

| source | as written | input that shows it | evidently intended | confidence | as-written member | corrected member |
|---|---|---|---|---|---|---|
| lib/UTFTGui/CGraph.cpp:404-412 | `setYGridInterval` steps `m_YGridStart` by the interval until it passes `y0`, even when the interval is 0 | `setYGridInterval(0)` on a chart with `y0 = 10`: `0 < 10` stays true forever (with `y0 = -5` the first loop never ends) | an interval of 0 turns the Y grid off (lib/UTFTGui/CGraph.h:39) and should leave the start at 0 | high; not executed | ChartSpec.ZeroIntervalNeverSettles | ChartSpec.GridStart |
| lib/UTFTGui/CGraph.cpp:410 | the downward search steps only while `start - ival > y0`, so it stops one interval above a `y0` that is itself a grid value | `setYGridInterval(0.5)` on the thermocouple charts with `y0 = -1` (src/main.cpp:137-138, 183): the search gives -0.5 and no grid line is drawn at -1, while an on-grid `y0 = 1` gets its line | the lowest grid value at or above `y0`, as the comment at line 408 says, which `>=` gives | medium; not executed | ChartSpec.SearchMissesNegativeFloor | ChartSpec.GridStart |
