# Meteogram chart decoder (ModelUM) in Dafny

LibMeteoPL turns the bitmap of a meteogram into numeric series. A meteogram
is a forecast chart drawn at fixed coordinates. The library's `ModelUM` class
takes the chart's ARGB pixels and clears the alpha byte of every pixel in
place. It then decodes the image:

- it reads the axis labels of the temperature and pressure panels by exact
  template matching of 5x8 and 5x9 digit glyphs;
- it calibrates each panel's linear row-to-value scale from the first
  legible label found from the top and the first found from the bottom;
- it samples every chart column:
  - the centre of the red temperature curve and of the blue perceived
    temperature curve;
  - the extremes of the two shaded min/max bands;
  - the first black pressure pixel;
- optionally, it fills the gaps of the temperature and pressure series by
  edge extension and linear interpolation;
- it reads the date and hour of the caption, which the client's
  `getTimestamp` turns into a timestamp.

Accessors then answer, for each series kind:

- how many samples the series holds;
- the samples themselves;
- the value step of one pixel row.

The model follows the .NET class `DotNetSources/LibMeteoPLDotNet/ModelUM.cs`.
It also follows the generated Java class
`JavaDerivative/LibMeteoPLJavaGenerated/ModelUM.java`. That class is an
earlier, temperature-only form of the same decoder, and it shares the glyph
tables and the label, digit, caption and gap-filling code. The pixel reader
`getPixel` is `Layout.Pixel`, with buffers indexed `x + 540 * y`.

The modules follow the decoder's stages:

- `Layout`: the chart's fixed geometry, colours and sentinels.
- `Image`: alpha clearing and the outcome status.
- `Glyphs`: the glyph tables, `digitMatch`, `readDigit`, `isDigit` and
  `isMinus`. Each is a method with nested loops over the client's array,
  proved equal to a ghost specification. The lemmas prove:
  - no two symbols' glyphs can match one window, so the library's
    "8 before 3" order can never change a result;
  - `readDigit` returns the symbol whose glyph is drawn.
- `Numbers`: `readXdigit`, `readUpTo3digit` and `read3or4digit`. The lemmas
  prove:
  - a run fails exactly when one of its slots is unreadable;
  - otherwise the run reads the base-10 number of its digits, negated when a
    minus sign is drawn, and bounded by 10^n.
- `Calibration`: the two anchor scans and the scale. It holds the
  as-written and the corrected scale (see Findings). The two classes read
  both panels with the corrected scale; "## Left out" names each member
  this affects.
- `Sampling`: the column samplers for the temperature and pressure panels.
- `GapFill`: `fixMissingData`, in place on the series arrays, against a
  reference repair stated as sequences.
- `Caption`: `readDate`.
- `DotNetModel` and `JavaModel`: the two `ModelUM` classes. Each has its
  constructor, its parsing steps and its accessors.

## Model

| member | source | states |
|---|---|---|
| Image.MaskAlpha | DotNetSources/LibMeteoPLDotNet/ModelUM.cs:137 | `pixel & 0xffffff` is a 24-bit colour congruent to the pixel modulo 2^24, so negative (alpha >= 0x80) pixels are covered too |
| Image.MaskAlphaKeepsColour | DotNetSources/LibMeteoPLDotNet/ModelUM.cs:137 | whatever the alpha byte over an RGB colour, masking yields that colour; a bare colour is left unchanged |
| Image.MaskedIdempotent | DotNetSources/LibMeteoPLDotNet/ModelUM.cs:134-138 | after the alpha loop every pixel is in [0, 2^24), and a second pass would change nothing |
| Image.MaskPixels | DotNetSources/LibMeteoPLDotNet/ModelUM.cs:134-138 | the client's buffer is rewritten in place, each pixel replaced by its masked value |
| Glyphs.Glyph8 | DotNetSources/LibMeteoPLDotNet/ModelUM.cs:728-952 | each digit's 8-row glyph table is 5x8 and has 0/1 cells at the five identifying probe cells |
| Glyphs.Glyph9 | DotNetSources/LibMeteoPLDotNet/ModelUM.cs:738-965 | each digit's 9-row glyph table is 5x9 and has 0/1 cells at the probe cells |
| Glyphs.CellsAgreeFromMeaning | DotNetSources/LibMeteoPLDotNet/ModelUM.cs:705-721 | the cell-by-cell recursive match from cell c holds iff every cell of the window from c agrees with the mask |
| Glyphs.MaskMatchesMeaning | DotNetSources/LibMeteoPLDotNet/ModelUM.cs:705-721 | a window matches a mask iff every pixel equals the colour where the mask is 1 and differs from it where the mask is 0 |
| Glyphs.MatchMask | DotNetSources/LibMeteoPLDotNet/ModelUM.cs:705-721 | the nested column/row loop with early exit returns exactly whether the window matches the mask |
| Glyphs.DigitMatch | DotNetSources/LibMeteoPLDotNet/ModelUM.cs:687-703 | true iff the symbol's 8-row or 9-row glyph matches (only the 8-row glyph for the minus sign); false for any other symbol |
| Glyphs.FirstMatchStep | DotNetSources/LibMeteoPLDotNet/ModelUM.cs:638-685 | trying the k-th symbol of the library's order either returns it or goes on with the next one |
| Glyphs.DigitAtChain | DotNetSources/LibMeteoPLDotNet/ModelUM.cs:638-685 | the digit read at a window is the if-chain 0, 1, 2, 8, 4, 5, 6, 7, 3, 9, minus, else ERR |
| Glyphs.DigitAtMeaning | DotNetSources/LibMeteoPLDotNet/ModelUM.cs:616-685 | a digit 0..9 is read iff some digit glyph matches, and it is one that matches; -1 iff no digit but the minus matches; ERR iff nothing matches |
| Glyphs.ProbesIdentify8 | DotNetSources/LibMeteoPLDotNet/ModelUM.cs:728-980 | the five probe cells of every 8-row glyph and of the minus sign decode back to that symbol |
| Glyphs.ProbesIdentify9 | DotNetSources/LibMeteoPLDotNet/ModelUM.cs:738-965 | the five probe cells of every 9-row glyph decode back to that digit |
| Glyphs.MatchShowsProbes | DotNetSources/LibMeteoPLDotNet/ModelUM.cs:705-721 | a matching window shows the mask's probe cells |
| Glyphs.SymbolShowsProbes | DotNetSources/LibMeteoPLDotNet/ModelUM.cs:687-703 | a window a symbol matches shows that symbol's probe code |
| Glyphs.GlyphsExclusive | DotNetSources/LibMeteoPLDotNet/ModelUM.cs:622 | no window matches two different symbols, so the "8 before 3" order cannot change any result |
| Glyphs.DrawnSymbolKind | DotNetSources/LibMeteoPLDotNet/ModelUM.cs:616-634 | a window some symbol matches is a digit (isDigit) or a minus (isMinus) |
| Glyphs.DigitAtIsDrawnSymbol | DotNetSources/LibMeteoPLDotNet/ModelUM.cs:638-685 | when a symbol's glyph is drawn at a window, readDigit returns that symbol |
| Glyphs.ReadDigit | DotNetSources/LibMeteoPLDotNet/ModelUM.cs:638-685 | the method returns the digit read at the window |
| Glyphs.IsDigit | DotNetSources/LibMeteoPLDotNet/ModelUM.cs:616-629 | true iff some digit glyph matches, iff readDigit returns 0..9 |
| Glyphs.IsMinus | DotNetSources/LibMeteoPLDotNet/ModelUM.cs:631-634 | true iff the minus glyph matches |
| Numbers.PowMonotone | DotNetSources/LibMeteoPLDotNet/ModelUM.cs:541-555 | 10^m <= 10^n for m <= n, which bounds a longer run |
| Numbers.Base10Bounds | DotNetSources/LibMeteoPLDotNet/ModelUM.cs:550-553 | the most-significant-first number of n decimal digits lies in [0, 10^n) |
| Numbers.AccumulateMeaning | DotNetSources/LibMeteoPLDotNet/ModelUM.cs:541-555 | the slot loop fails iff some slot is ERR; otherwise it yields the base-10 number of the digit slots, skipping minus slots |
| Numbers.AccumulatePrefixFails | DotNetSources/LibMeteoPLDotNet/ModelUM.cs:545-548 | once a prefix of the slots fails, the whole run fails (the early return) |
| Numbers.AccumulateNext | DotNetSources/LibMeteoPLDotNet/ModelUM.cs:543-553 | one more slot: ERR fails, a digit d gives 10 * ret + d, a minus leaves ret |
| Numbers.NumberOfMeaning | DotNetSources/LibMeteoPLDotNet/ModelUM.cs:536-562 | the run is ERR iff a slot is ERR; otherwise it is the base-10 value below 10^n, negated iff a minus sign was seen |
| Numbers.SlotSymbolAt | DotNetSources/LibMeteoPLDotNet/ModelUM.cs:543 | slot i is the symbol read 6 * i columns to the right |
| Numbers.NumberAtMeaning | DotNetSources/LibMeteoPLDotNet/ModelUM.cs:536-562 | readXdigit is ERR iff one of its n slots is unreadable; otherwise it is the slots' base-10 value, negated iff the minus glyph is at x |
| Numbers.NumberAtBound | DotNetSources/LibMeteoPLDotNet/ModelUM.cs:536-562 | an n-slot reading is ERR or strictly between -10^n and 10^n |
| Numbers.ReadSlots | DotNetSources/LibMeteoPLDotNet/ModelUM.cs:541-555 | the slot loop reports failure iff the accumulation fails, and otherwise returns the accumulated value |
| Numbers.ReadXDigit | DotNetSources/LibMeteoPLDotNet/ModelUM.cs:536-562 | the method returns the number read at (x, y) with n slots |
| Numbers.UpTo3DigitMeaning | DotNetSources/LibMeteoPLDotNet/ModelUM.cs:493-516 | the label is ERR iff the 3-, 2- and 1-digit readings, each one slot further right, all fail; otherwise it lies in [-999, 999], and the first legible reading decides: the 3-digit one, else the 2-digit one, else the 1-digit one |
| Numbers.ReadUpTo3Digit | DotNetSources/LibMeteoPLDotNet/ModelUM.cs:493-516 | the method returns the first legible of the 3-, 2- and 1-digit readings, or ERR |
| Numbers.ThreeOr4DigitMeaning | DotNetSources/LibMeteoPLDotNet/ModelUM.cs:518-534 | the label is ERR iff both the 4-digit reading and the 3-digit reading one slot right fail; otherwise it lies in [-9999, 9999]; a legible 4-digit reading wins, else the 3-digit reading one slot right decides |
| Numbers.Read3Or4Digit | DotNetSources/LibMeteoPLDotNet/ModelUM.cs:518-534 | the method returns the first legible of the 4- and 3-digit readings, or ERR |
| Calibration.TemperatureLabelAt | DotNetSources/LibMeteoPLDotNet/ModelUM.cs:422-424 | the temperature label scanned at row i is readUpTo3digit at column 39, row i |
| Calibration.PressureLabelAt | DotNetSources/LibMeteoPLDotNet/ModelUM.cs:463-465 | the pressure label scanned at row i is read3or4digit at column 33, row i |
| Calibration.LabelBounds | DotNetSources/LibMeteoPLDotNet/ModelUM.cs:422-483 | every scanned label is ERR or within [-9999, 9999] |
| Calibration.ReadLabel | DotNetSources/LibMeteoPLDotNet/ModelUM.cs:424 | reading the label at a scanned row gives that row's label |
| Calibration.TopScanMeaning | DotNetSources/LibMeteoPLDotNet/ModelUM.cs:422-431 | the forward scan finds no anchor (start and value stay 0) iff no label is legible on rows 50..132 (222..304); otherwise it finds the first legible row, its label, and stores row + 4 |
| Calibration.BottomScanMeaning | DotNetSources/LibMeteoPLDotNet/ModelUM.cs:433-442 | the backward scan finds no anchor iff no label is legible on rows 133 down to 51; otherwise it finds the last legible row, its label, and stores row + 4 |
| Calibration.AnchorsOrdered | DotNetSources/LibMeteoPLDotNet/ModelUM.cs:422-442 | when both scans find a label, the top anchor's row is not below the bottom anchor's |
| Calibration.FindTopAnchor | DotNetSources/LibMeteoPLDotNet/ModelUM.cs:422-431 | the loop with early break returns the top anchor of the panel |
| Calibration.FindBottomAnchor | DotNetSources/LibMeteoPLDotNet/ModelUM.cs:433-442 | the downward-counting loop returns the bottom anchor of the panel |
| Calibration.ScaleOf | DotNetSources/LibMeteoPLDotNet/ModelUM.cs:444-447 | corrected scale (see Findings): degenerate iff the two anchor rows coincide (division by zero), otherwise with a non-negative precision |
| Calibration.ScaleAsWritten | DotNetSources/LibMeteoPLDotNet/ModelUM.cs:444-447 | the scale as the code computes it, span \|a + b\| on a sign change; degenerate iff the anchor rows coincide |
| Calibration.PressureScaleAsWritten | DotNetSources/LibMeteoPLDotNet/ModelUM.cs:485-488 | the pressure scale as the code computes it, row0 extrapolated with the temperature precision; degenerate iff the anchor rows coincide |
| Calibration.ScaleThroughAnchors | DotNetSources/LibMeteoPLDotNet/ModelUM.cs:446-447 | on a downward-decreasing axis the corrected scale maps the top anchor's row to its label and the bottom anchor's row to its label |
| Calibration.ScaleNonIncreasing | DotNetSources/LibMeteoPLDotNet/ModelUM.cs:446-447 | values never increase down the panel |
| Calibration.ScaleRow0Bound | DotNetSources/LibMeteoPLDotNet/ModelUM.cs:444-447 | with labels of magnitude at most m and the top anchor at most h rows below the panel's first row, the scale's first-row value is at most m + 2m·h |
| Calibration.TemperatureLabelBound | DotNetSources/LibMeteoPLDotNet/ModelUM.cs:422-442 | every label the temperature scans read is ERR or within [-999, 999] |
| Calibration.TopTemperatureAnchorBounds | DotNetSources/LibMeteoPLDotNet/ModelUM.cs:422-431 | the top temperature anchor carries a label in [-999, 999] and lies at most 78 rows below the panel's first row |
| Calibration.BottomTemperatureAnchorBounds | DotNetSources/LibMeteoPLDotNet/ModelUM.cs:433-442 | the bottom temperature anchor carries a label in [-999, 999] and lies at most 79 rows below the panel's first row |
| Calibration.TemperatureScaleBounds | DotNetSources/LibMeteoPLDotNet/ModelUM.cs:422-447 | the temperature scale read from any image, when not degenerate, has a non-negative precision and a first-row value of at most 999 + 1998·78, below NOVALUE |
| Calibration.SpanSignChangeMisreads | DotNetSources/LibMeteoPLDotNet/ModelUM.cs:444 | labels 10 (row 62) and -5 (row 122): the as-written scale reads 5 at the -5 label's row, the corrected one -5 |
| Calibration.PressureRow0Misreads | DotNetSources/LibMeteoPLDotNet/ModelUM.cs:488 | labels 1020 (row 240) and 1000 (row 300) with temperature precision 0.5: the as-written pressure scale misses 1020 at the top label's row, the corrected one hits it |
| Calibration.SpanAsWrittenAgrees | DotNetSources/LibMeteoPLDotNet/ModelUM.cs:444 | when the two labels do not change sign, the as-written scale equals the corrected one |
| Calibration.ReadScale | DotNetSources/LibMeteoPLDotNet/ModelUM.cs:415-447 | reading a panel's scale returns its two anchors and the scale through them |
| Sampling.MinRowMeaning | DotNetSources/LibMeteoPLDotNet/ModelUM.cs:262-265 | minT is NOVALUE iff the colour is absent from the column, else the first row holding it |
| Sampling.MaxRowMeaning | DotNetSources/LibMeteoPLDotNet/ModelUM.cs:262-265 | maxT is -NOVALUE iff the colour is absent, else the last row holding it |
| Sampling.CurveValueMeaning | DotNetSources/LibMeteoPLDotNet/ModelUM.cs:286-293 | a column without the curve colour keeps NOVALUE; otherwise the value is the mean of the values of the topmost and bottommost curve rows, which enclose every curve pixel |
| Sampling.CurveValueBounds | DotNetSources/LibMeteoPLDotNet/ModelUM.cs:286-293 | with a non-negative precision a curve value is NOVALUE or lies between the values of the column's last row and first row |
| Sampling.BandMeaning | DotNetSources/LibMeteoPLDotNet/ModelUM.cs:275-284 | the band minimum (maximum) is at most (least) the value of every band row and equals one of them, or keeps its sentinel NOVALUE (-NOVALUE) when the column has no band pixel |
| Sampling.BandOrdered | DotNetSources/LibMeteoPLDotNet/ModelUM.cs:275-284 | in a column with a band pixel, the band minimum is at most its maximum |
| Sampling.SampleTemperatureColumn | DotNetSources/LibMeteoPLDotNet/ModelUM.cs:250-295 | the per-column loop yields the six temperature samples of the column |
| Sampling.SampledBands | DotNetSources/LibMeteoPLDotNet/ModelUM.cs:247-296 | in every sampled column, min <= max for both bands, or both hold their sentinels |
| Sampling.SampleTemperature | DotNetSources/LibMeteoPLDotNet/ModelUM.cs:244-297 | the six series arrays hold, column by column, the samples of the temperature panel |
| Sampling.SampledTemperatureBounds | DotNetSources/LibMeteoPLDotNet/ModelUM.cs:244-297 | with a non-negative precision every sample of the temperature curve is NOVALUE or between the values of the panel's last and first rows |
| Sampling.ToMmHgMonotone | DotNetSources/LibMeteoPLDotNet/ModelUM.cs:328-331 | the hPa-to-mmHg conversion is strictly increasing and maps 0 to 0 |
| Sampling.FirstRowMeaning | DotNetSources/LibMeteoPLDotNet/ModelUM.cs:311-324 | the downward walk stops at the first black row, or finds none |
| Sampling.PressureSampleMeaning | DotNetSources/LibMeteoPLDotNet/ModelUM.cs:306-325 | a column with no black pixel, or black in its first row (a dotted grid line), keeps NOVALUE; otherwise hPa is the value of the first black row and mmHg is its conversion |
| Sampling.SamplePressureColumn | DotNetSources/LibMeteoPLDotNet/ModelUM.cs:308-324 | the per-column loop with its breaks yields the column's pressure sample |
| Sampling.SamplePressure | DotNetSources/LibMeteoPLDotNet/ModelUM.cs:303-326 | both pressure arrays hold, column by column, the samples of the pressure panel |
| GapFill.FirstRealMeaning | DotNetSources/LibMeteoPLDotNet/ModelUM.cs:340-353 | the forward search finds the first sample that is not NOVALUE, or reports that there is none |
| GapFill.LastRealBelowMeaning | DotNetSources/LibMeteoPLDotNet/ModelUM.cs:356-369 | the backward search finds the last sample that is not NOVALUE, or reports that there is none |
| GapFill.EdgesMeaning | DotNetSources/LibMeteoPLDotNet/ModelUM.cs:340-369 | an all-NOVALUE series is left as it is; otherwise the columns before the first real sample copy it, those after the last copy that one, and both ends become real |
| GapFill.FillLeftEdge | DotNetSources/LibMeteoPLDotNet/ModelUM.cs:340-353 | the left-edge loop rewrites the array to its left-edge fill |
| GapFill.FillRightEdge | DotNetSources/LibMeteoPLDotNet/ModelUM.cs:356-369 | the right-edge loop rewrites the array to its right-edge fill |
| GapFill.Between | DotNetSources/LibMeteoPLDotNet/ModelUM.cs:382-385 | every interpolated sample lies between the two real neighbours of its gap |
| GapFill.RepairedMeaning | DotNetSources/LibMeteoPLDotNet/ModelUM.cs:372-387 | the reference repair keeps every real sample, leaves no NOVALUE, and gives each gap sample a value between the real samples enclosing its gap |
| GapFill.FillHolesRepairs | DotNetSources/LibMeteoPLDotNet/ModelUM.cs:372-387 | when both ends are real and no sample exceeds NOVALUE, the left-to-right hole loop ends in the reference repair |
| GapFill.FillHolesFailsAtEdges | DotNetSources/LibMeteoPLDotNet/ModelUM.cs:375-382 | a series whose first or last sample is NOVALUE makes the hole loop index out of range |
| GapFill.FixedTemperatureMeaning | DotNetSources/LibMeteoPLDotNet/ModelUM.cs:340-387 | for a series with no sample above NOVALUE (as sampling leaves it, see GapFill.PanelTemperatureRepair), the temperature repair fails iff every sample is NOVALUE; otherwise it is the reference repair of the edge-filled series, keeps every real sample and leaves no NOVALUE |
| GapFill.PanelTemperatureRepair | DotNetSources/LibMeteoPLDotNet/ModelUM.cs:340-387 | the temperature curve sampled with the scale read from any image has no sample above NOVALUE, so its repair fails iff every sample is NOVALUE, and otherwise keeps every real sample and leaves no NOVALUE |
| GapFill.PressureHolesRepair | DotNetSources/LibMeteoPLDotNet/ModelUM.cs:390-403 | when both ends are real and no hPa sample exceeds NOVALUE, the hPa series gets the reference repair and mmHg the conversion of each filled hPa sample |
| GapFill.PressureHolesFailAtEdges | DotNetSources/LibMeteoPLDotNet/ModelUM.cs:390-397 | the pressure series has no edge fill, so a NOVALUE first or last sample makes the hole loop index out of range |
| GapFill.FindRunEnd | DotNetSources/LibMeteoPLDotNet/ModelUM.cs:377-381 | rightx is the next real sample after leftx, or the array's length when there is none (the overrun) |
| GapFill.InterpolateRun | DotNetSources/LibMeteoPLDotNet/ModelUM.cs:382-386 | the run is rewritten in place to the straight line between its neighbours |
| GapFill.InterpolatePressureRun | DotNetSources/LibMeteoPLDotNet/ModelUM.cs:397-402 | the hPa run is interpolated, and each mmHg sample of the run is converted from the new hPa value |
| GapFill.FillHole | DotNetSources/LibMeteoPLDotNet/ModelUM.cs:375-387 | filling the gap at leftx succeeds iff it stays in range, and then leaves the gap step's result |
| GapFill.FillPressureHole | DotNetSources/LibMeteoPLDotNet/ModelUM.cs:390-403 | the same for the pressure pair |
| GapFill.FixMissingTemperature | JavaDerivative/LibMeteoPLJavaGenerated/ModelUM.java:226-280 | the temperature-only gap filler succeeds iff the temperature repair does, and leaves the repaired series |
| GapFill.FixMissingData | DotNetSources/LibMeteoPLDotNet/ModelUM.cs:337-409 | the gap filler succeeds iff neither series overruns, and then leaves the repaired temperature and pressure series |
| Caption.RowDigitsAt | DotNetSources/LibMeteoPLDotNet/ModelUM.cs:574-583 | the caption symbol at column 64 + k is the digit read there |
| Caption.DateOf | DotNetSources/LibMeteoPLDotNet/ModelUM.cs:580-583 | day and month are two-digit numbers whose tens and units are the digits at offsets 0, 7 and 17, 24 |
| Caption.FirstDateMeaning | DotNetSources/LibMeteoPLDotNet/ModelUM.cs:571-588 | the date scan stops at the first column with digits at offsets 0, 7, 17 and 24, or finds none |
| Caption.FirstTimeMeaning | DotNetSources/LibMeteoPLDotNet/ModelUM.cs:590-595 | the time scan stops at the first column with digits at offsets 0 and 7, or finds none |
| Caption.HourCorrectionMeaning | DotNetSources/LibMeteoPLDotNet/ModelUM.cs:600-604 | 629 seconds per pixel; the subtracted hours are the whole hours elapsed at the label's column, between 1 and 73 and growing with the column |
| Caption.TimestampMeaning | DotNetSources/LibMeteoPLDotNet/ModelUM.cs:564-611 | without a time label the timestamp is unchanged; otherwise it is getTimestamp(month, day, hour) at the first time label, with hour in [-73, 98], and day/month are 0 without a date label |
| Caption.IsDigitIn | DotNetSources/LibMeteoPLDotNet/ModelUM.cs:574-577 | the caption test is true iff a decimal digit is read there |
| Caption.ReadDigitIn | DotNetSources/LibMeteoPLDotNet/ModelUM.cs:580-583 | reading the caption digit returns the symbol there |
| Caption.DateLabelAt | DotNetSources/LibMeteoPLDotNet/ModelUM.cs:573-578 | true iff a date label starts at the column |
| Caption.ReadDateLabel | DotNetSources/LibMeteoPLDotNet/ModelUM.cs:580-583 | returns the day and month of the date label at the column |
| Caption.ReadDayMonth | DotNetSources/LibMeteoPLDotNet/ModelUM.cs:567-588 | the date loop returns the first date label's day and month, or 0/0 |
| Caption.TimeLabelAt | DotNetSources/LibMeteoPLDotNet/ModelUM.cs:592-595 | true iff a time label starts at the column |
| Caption.ReadHour | DotNetSources/LibMeteoPLDotNet/ModelUM.cs:597-604 | returns the label's hour minus the hours elapsed at its column |
| Caption.ReadDate | DotNetSources/LibMeteoPLDotNet/ModelUM.cs:564-614 | the caption yields the timestamp TimestampMeaning describes |
| DotNetModel.ModelUM.constructor | DotNetSources/LibMeteoPLDotNet/ModelUM.cs:124-142 | a buffer of the wrong size is refused through the failure handler and left as it is; otherwise its alpha bytes are cleared in place and the masked image is decoded; eight fresh, distinct arrays of 412 samples |
| DotNetModel.ModelUM.ReadTemperature | DotNetSources/LibMeteoPLDotNet/ModelUM.cs:228-229 | reads the temperature scale and, when it is not degenerate, stores it and samples the six temperature series with it; pressure is untouched |
| DotNetModel.ModelUM.ReadPressure | DotNetSources/LibMeteoPLDotNet/ModelUM.cs:231-232 | reads the pressure scale and, when it is not degenerate, stores it and samples both pressure series; temperature is untouched |
| DotNetModel.ModelUM.SampledSeries | DotNetSources/LibMeteoPLDotNet/ModelUM.cs:244-326 | the sampled arrays are the whole-panel series |
| DotNetModel.ModelUM.ParsePixels | DotNetSources/LibMeteoPLDotNet/ModelUM.cs:226-239 | temperature panel, pressure panel, optional gap filling, then caption; the result is the decoded state of the image |
| DotNetModel.ModelUM.FinishParsing | DotNetSources/LibMeteoPLDotNet/ModelUM.cs:234-238 | the optional gap filling replaces the temperature curve and both pressure series by their repairs (or stops on an overrun), leaves the bands, and the caption sets the timestamp |
| DotNetModel.ModelUM.GetSampleNumber | DotNetSources/LibMeteoPLDotNet/ModelUM.cs:149-167 | 412 for the eight decoded kinds; any other kind is reported as "Type not yet implemented" |
| DotNetModel.ModelUM.GetSamples | DotNetSources/LibMeteoPLDotNet/ModelUM.cs:172-196 | a series for exactly the eight decoded kinds; any other kind is reported as "Type not yet implemented" |
| DotNetModel.ModelUM.GetPrecision | DotNetSources/LibMeteoPLDotNet/ModelUM.cs:201-221 | a precision for exactly the eight decoded kinds; any other kind is reported as "Type not yet implemented" |
| DotNetModel.ModelUM.AccessorsAgree | DotNetSources/LibMeteoPLDotNet/ModelUM.cs:149-221 | the three accessors accept the same kinds, each series has as many samples as its count, and different kinds get different arrays |
| DotNetModel.ModelUM.ParsedSeries | DotNetSources/LibMeteoPLDotNet/ModelUM.cs:226-239 | after a successful decoding both scales are linear and stored, and the temperature panel was sampled with them |
| DotNetModel.ModelUM.PrecisionsOfDecoded | DotNetSources/LibMeteoPLDotNet/ModelUM.cs:201-221 | after a successful decoding every precision is non-negative, the six temperature kinds share one, and the mmHg precision is the hPa one converted |
| DotNetModel.ModelUM.SampledAccessorBands | DotNetSources/LibMeteoPLDotNet/ModelUM.cs:275-284 | the min and max series the accessors return are ordered in every column, or both hold their sentinels |
| JavaModel.ModelUM.constructor | JavaDerivative/LibMeteoPLJavaGenerated/ModelUM.java:57-75 | a buffer of the wrong size is refused and left as it is; otherwise its alpha bytes are cleared in place and the temperature panel and caption are decoded; six fresh, distinct arrays of 412 samples |
| JavaModel.ModelUM.ParsePixels | JavaDerivative/LibMeteoPLJavaGenerated/ModelUM.java:154-163 | temperature scale and series, optional gap filling, then caption |
| JavaModel.ModelUM.FinishParsing | JavaDerivative/LibMeteoPLJavaGenerated/ModelUM.java:158-162 | the optional gap filling replaces the temperature curve by its repair (or stops on an overrun), and the caption sets the timestamp |
| JavaModel.ModelUM.GetSampleNumber | JavaDerivative/LibMeteoPLJavaGenerated/ModelUM.java:88-104 | 412 for the six temperature kinds, ERR for any other |
| JavaModel.ModelUM.GetSamples | JavaDerivative/LibMeteoPLJavaGenerated/ModelUM.java:109-128 | a series for exactly the six temperature kinds, none (null) otherwise |
| JavaModel.ModelUM.GetPrecision | JavaDerivative/LibMeteoPLJavaGenerated/ModelUM.java:133-149 | the temperature precision for the six kinds, -1 otherwise |
| JavaModel.ModelUM.AccessorsAgree | JavaDerivative/LibMeteoPLJavaGenerated/ModelUM.java:88-128 | a series exists iff the count is not ERR, its length is the count, and different kinds get different arrays |
| JavaModel.ModelUM.ParsedSeries | JavaDerivative/LibMeteoPLJavaGenerated/ModelUM.java:154-163 | after a successful decoding the temperature scale is linear and stored, and the panel was sampled with it |
| JavaModel.ModelUM.SampledAccessorBands | JavaDerivative/LibMeteoPLJavaGenerated/ModelUM.java:199-208 | the min and max series the accessors return (kinds 2 and 1, 5 and 4 here) are ordered in every column, or both hold their sentinels |

## Left out

- Calibration.ReadScale: it returns the corrected scale `ScaleOf`, whose
  span is always the label difference |a - b| and whose row0 is
  extrapolated with the panel's own precision. It does not
  return the scale the code computes at DotNetSources/LibMeteoPLDotNet/ModelUM.cs:444-447,
  :485-488 and JavaDerivative/LibMeteoPLJavaGenerated/ModelUM.java:315-318.
  The two differ only when the labels change sign, or, for pressure, when
  the top anchor is not on row 230 and the precisions differ. Without a
  sign change the two temperature scales coincide
  (`Calibration.SpanAsWrittenAgrees`). The code's
  scale is `Calibration.ScaleAsWritten` and
  `Calibration.PressureScaleAsWritten`; see Findings.
- DotNetModel.ModelUM.constructor: the decoded state it promises uses the
  corrected scales of both panels, not the code's (see Calibration.ReadScale).
- DotNetModel.ModelUM.ReadTemperature: it stores and samples with the
  corrected temperature scale, not the code's sign-change span.
- DotNetModel.ModelUM.ReadPressure: it stores and samples with the
  corrected pressure scale, whose row0 uses the pressure precision, not
  the temperature precision the code uses.
- DotNetModel.ModelUM.ParsePixels: its decoded state uses the corrected
  scales of both panels, not the code's.
- DotNetModel.ModelUM.ParsedSeries: the stored scales it names are the
  corrected ones, not the code's.
- JavaModel.ModelUM.constructor: the decoded state it promises uses the
  corrected temperature scale, not the code's sign-change span.
- JavaModel.ModelUM.ParsePixels: its decoded state uses the corrected
  temperature scale, not the code's.
- JavaModel.ModelUM.ParsedSeries: the stored scale it names is the
  corrected one, not the code's.
- Doubles: the series, precisions and row values are modelled as exact
  reals, so IEEE rounding is not modelled. The integer arithmetic (labels,
  slot accumulation, the hour correction) is exact and non-negative where
  it divides, so it matches C# and Java.
- Division by zero in the scale: when both anchor rows coincide (including
  when no label is found at all), the code divides by zero and keeps
  decoding with NaN or infinite values. The model stops with status
  `DegenerateScale` and says nothing about the series.
- DotNetModel.ModelUM.constructor: the client's `throwException` for a
  buffer of the wrong size is modelled as stopping construction with status
  `InvalidInput`. A handler that returns would let the code go on and index
  a short buffer.
- JavaModel.ModelUM.constructor: the same holds for the Java class's
  `throwException` call on a buffer of the wrong size.
- DotNetModel.ModelUM.GetSamples: an unknown kind is modelled as a
  `Failure` outcome, assuming the client's failure handler aborts the
  call. The `ERR`, `null` and `-1` returned after a handler that returns
  are not modelled. The same holds for GetSampleNumber and GetPrecision.
- GapFill.FixMissingData: a gap at either end of a series makes the code
  index out of range and throw. The model reports this as status
  `IndexOverrun` and does not say what the arrays hold when that happens.
  The method interleaves the temperature and pressure holes column by
  column, as the code does. Its contract describes the result as two
  independent repairs, one per series, which is what the interleaved loop
  yields whenever neither series overruns.
- The timestamp: `Utils.getTimestamp` is the client's code. It is a
  function parameter, and its 64-bit result is an unbounded integer.
- Fields the library declares but never fills: the kinds 6..15 (surface and
  dew-point temperature, humidity, rain, snow, precipitation) and the
  `PEAKS_NUMBER` arrays are not modelled. The accessors reject those kinds,
  as the code does.
- Aliasing: `getSamples` hands the client the model's own arrays. Writes
  the client makes to them afterwards are not modelled.
- The C# to Java translator and the sample programs are not part of this
  model.
- Panels and refinements the code does not have. The curve centre is the
  plain midpoint of the topmost and bottommost curve rows, with no weighting.
  The pressure sample is the first black row, with no thickness test. After
  gap filling, the min/max series are not repaired from the curve. There is
  no wind or day/night panel. The model follows the code in each of these.

## Findings

The pressure span at DotNetSources/LibMeteoPLDotNet/ModelUM.cs:485 follows
the same sign-change rule as the temperature span, and
`Calibration.PressureScaleAsWritten` models it. Real hPa labels never change
sign, so that case cannot arise in practice.

| source | as written | input that shows it | evidently intended | confidence | as-written member | corrected member |
|---|---|---|---|---|---|---|
| DotNetSources/LibMeteoPLDotNet/ModelUM.cs:444 | the temperature span is \|a + b\| when the two labels have opposite signs | top label 10 on row 62, bottom label -5 on row 122: span 5 instead of 15, so the -5 label's row reads 5 | \|a - b\| always, so the scale passes through both labels | high, not executed | Calibration.SpanSignChangeMisreads | Calibration.ScaleThroughAnchors |
| JavaDerivative/LibMeteoPLJavaGenerated/ModelUM.java:315 | the same span rule in the Java class | the same labels as above | \|a - b\| always | high, not executed | Calibration.SpanSignChangeMisreads | Calibration.ScaleThroughAnchors |
| DotNetSources/LibMeteoPLDotNet/ModelUM.cs:488 | the pressure value of the panel's first row is extrapolated with the temperature precision | labels 1020 on row 240 and 1000 on row 300, temperature precision 0.5: the top label's row reads 1021 2/3 instead of 1020 | extrapolate with the pressure precision | high, not executed | Calibration.PressureRow0Misreads | Calibration.ScaleThroughAnchors |
