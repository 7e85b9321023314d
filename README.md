# RunParams of pixy_roimux, modelled in Dafny

pixy_roimux reconstructs events from the VIPER pixel readout, where each run has
its own wiring and geometry. The class `RunParams` holds these maps for one run:

- a forward table from DAQ channel to readout channel, and an inverse table back;
- the coordinates of each pixel within its region of interest (ROI), in units of
  the pixel pitch;
- the coordinates of each ROI;
- the counts `nPixels`, `nRois` and `nChans`.

The readout index space `[0, nChans)` holds the pixels `[0, nPixels)` followed
by the ROIs `[nPixels, nChans)`. An ROI's own index is its readout index minus
`nPixels`. Every indexed accessor (`daq2pixel`, `pixel2daq`, `daq2roi`,
`roi2daq`, `getPixelCoor`, `getRoiCoor`) reads through `std::vector::at`, so an
index past the end of a table raises `std::out_of_range`. Nothing is ever
clamped. The scalar getters (`getRunId`, `getNPixels`, `getNRois`, `getNChans`,
`getAnodeSample`) return a field and cannot fail.

The project has three modules:

- `Unsigned` (`unsigned.dfy`): the 32-bit C++ `unsigned` and `int` types, and
  `unsigned` addition and subtraction, which wrap modulo 2^32.
- `ChannelMap` (`channel_map.dfy`): the two channel tables. It proves that the
  one-directional invariant `readout2daq[daq2readout[i]] == i` over `[0, n)`
  already makes the tables mutually inverse permutations of `[0, n)`. The proof
  is a counting argument over the set of readout channels reached.
- `PixyRoimux` (`run_params.dfy`): `std::vector::at` as `At`, the class
  `RunParams` and the lemmas about it.

In the class, every field is a `const`. Nothing in the source writes a field
after construction. `m_runId` is declared `const`, and the other members are
private with no setter. Each `std::vector` becomes a `const` sequence. So the
fields cannot change between calls by construction, and every accessor is a
function. An indexed accessor returns `Result`: `Ok(value)` or
`Err(OutOfRange)`. A scalar getter returns its field as a plain `u32`.

The accessors have no precondition, just like the C++ ones. Each contract says
what the accessor returns on any object. For the indexed accessors and the three
count getters, it also says what that means on a `Valid()` object, i.e. one the
constructor made. `GetRunId` and `GetAnodeSample` have no such clause, because
`TablesValid` puts no constraint on the run id or the anode sample. The constructor's body is not
part of this model: it picks the wiring and geometry tables from the run id.
The tables and counts are therefore the constructor's parameters, and its
precondition `TablesValid` states what it establishes:

- `nChans == nPixels + nRois`;
- both channel tables have `nChans` entries;
- the inverse table undoes the forward table;
- there is one (x, y) pair per pixel and per ROI;
- pixel 0 has coordinates (0, 0).

Where the code and the class's design intent differ, the model follows the code.
Three such cases stand out:

- `daq2pixel` and `pixel2daq` are checked against the full table size `nChans`,
  not `nPixels`. `pixel2daq` therefore accepts an ROI's readout index.
- `daq2roi` on a pixel channel does not fail. The `unsigned` subtraction wraps
  to a value of at least 2^32 − `nPixels`, which is past every ROI
  (`DaqChannelIsPixelOrRoi`).
- `roi2daq` on an index of at least 2^32 − `nPixels` does not fail either. The
  addition wraps to a pixel's readout index, and the call returns that pixel's
  DAQ channel (`Roi2DaqWrapsIntoPixels`).

Because subtraction and addition wrap the same way, `roi2daq(daq2roi(c)) == c`
holds for every DAQ channel `c`, pixel or ROI (`RoiRoundTrip`).

## Model

| member | source | states |
|---|---|---|
| `Unsigned.Add32` | RunParams.h:56 | `unsigned` addition: the true sum, or the sum less 2^32 when it does not fit in 32 bits |
| `Unsigned.Sub32` | RunParams.h:49 | `unsigned` subtraction: the true difference, or the difference plus 2^32 when it is negative |
| `Unsigned.SubThenAdd` | RunParams.h:48-57 | subtracting an offset and adding it back returns the original value, wrapped or not |
| `Unsigned.AddThenSub` | RunParams.h:48-57 | adding an offset and subtracting it again returns the original value, wrapped or not |
| `ChannelMap.ForwardIsOnto` | RunParams.h:223-231 | if the inverse table undoes the forward table, every readout channel below `nChans` is reached by some DAQ channel |
| `ChannelMap.InvertsForwardIsBijection` | RunParams.h:13-14 | the one-directional invariant makes the DAQ→readout and readout→DAQ tables mutually inverse permutations of `[0, nChans)` ("and vice versa") |
| `PixyRoimux.At` | RunParams.h:35 | `std::vector::at`: the element when the index is below the size, `OutOfRange` otherwise |
| `PixyRoimux.RunParams.constructor` | RunParams.h:26-29 | from tables meeting `TablesValid`, builds a valid object whose getters return the run id, counts and anode sample it was given and whose tables are the ones given |
| `PixyRoimux.RunParams.Daq2Pixel` | RunParams.h:34-36 | `m_daq2readout[c]` when `c` is below the table size, `OutOfRange` otherwise; on a valid object it succeeds exactly for `c < nChans` and yields a readout channel below `nChans` |
| `PixyRoimux.RunParams.Pixel2Daq` | RunParams.h:41-43 | `m_readout2daq[p]` when `p` is below the table size, `OutOfRange` otherwise; on a valid object it succeeds exactly for `p < nChans` and yields a DAQ channel below `nChans` |
| `PixyRoimux.RunParams.Daq2Roi` | RunParams.h:48-50 | fails exactly when the DAQ channel is past the table; otherwise the readout channel minus `nPixels`, plus 2^32 when the readout channel is a pixel; on a valid object it succeeds exactly for `c < nChans`, and an ROI channel yields an index below `nRois` |
| `PixyRoimux.RunParams.Roi2Daq` | RunParams.h:55-57 | looks up `readout2daq` at `r + nPixels` mod 2^32 and fails exactly when that index is past the table; on a valid object it succeeds for every ROI and fails for `nRois <= r` when the sum does not wrap |
| `PixyRoimux.RunParams.GetPixelCoor` | RunParams.h:65-70 | `m_pixelCoor[p][d]`, failing when either index is out of range; on a valid object it succeeds exactly for `p < nPixels` and `d < 2` |
| `PixyRoimux.RunParams.GetRoiCoor` | RunParams.h:78-83 | `m_roiCoor[r][d]`, failing when either index is out of range; on a valid object it succeeds exactly for `r < nRois` and `d < 2` |
| `PixyRoimux.RunParams.AbsolutePixelCoor` | RunParams.h:74-75 | the absolute coordinate of a pixel in an ROI, i.e. the ROI coordinate plus the pixel coordinate; fails exactly when either lookup fails |
| `PixyRoimux.RunParams.GetRunId` | RunParams.h:88-90 | returns the run id stored at construction; the field is const, so every call returns the same value |
| `PixyRoimux.RunParams.GetNPixels` | RunParams.h:95-97 | the pixel count; on a valid object it is positive, at most `nChans`, and equal to the size of the pixel coordinate table |
| `PixyRoimux.RunParams.GetNRois` | RunParams.h:102-104 | the ROI count; on a valid object it equals `nChans - nPixels` and the size of the ROI coordinate table |
| `PixyRoimux.RunParams.GetNChans` | RunParams.h:110-112 | the readout channel count; on a valid object it equals `nPixels + nRois` and the size of both channel tables |
| `PixyRoimux.RunParams.GetAnodeSample` | RunParams.h:145-147 | returns the anode sample stored at construction |
| `PixyRoimux.PixelRoundTrip` | RunParams.h:34-43 | `pixel2daq(daq2pixel(c)) == c` for every DAQ channel `c < nChans` |
| `PixyRoimux.ReadoutRoundTrip` | RunParams.h:34-43 | `daq2pixel(pixel2daq(p)) == p` for every readout channel `p < nChans`, and `pixel2daq(p)` is a DAQ channel below `nChans` |
| `PixyRoimux.RoiRoundTrip` | RunParams.h:48-57 | `roi2daq(daq2roi(c)) == c` for every DAQ channel `c < nChans`, including pixel channels, whose wrapped offset wraps back |
| `PixyRoimux.RoiInverseRoundTrip` | RunParams.h:48-57 | `daq2roi(roi2daq(r)) == r` for every ROI `r < nRois` |
| `PixyRoimux.DaqChannelIsPixelOrRoi` | RunParams.h:48-50 | a DAQ channel's readout channel is a pixel exactly when its `daq2roi` value is not a valid ROI index |
| `PixyRoimux.Roi2DaqWrapsIntoPixels` | RunParams.h:55-57 | an index `r >= 2^32 - nPixels` is past every ROI, yet `roi2daq(r)` succeeds: it returns the DAQ channel of pixel `r + nPixels - 2^32` |
| `PixyRoimux.PixelZeroIsOrigin` | RunParams.h:61-62 | `getPixelCoor(0, 0) == 0` and `getPixelCoor(0, 1) == 0` |
| `PixyRoimux.PixelZeroSitsAtRoiCoor` | RunParams.h:74-75 | the absolute coordinate of pixel 0 of an ROI is that ROI's coordinate |

## Left out

- The constructor body (RunParams.h:29 declares it; its definition is not part of this model): selecting the configuration from the run id, and building the wiring tables, geometry tables and calibration values. The tables are constructor parameters, and their consistency is the constructor's precondition.
- The floating-point calibration getters `getPixelPitch`, `getDriftLength`, `getSampleTime`, `getDriftSpeed`, `getAdcLsb` and `getPreampGain` (RunParams.h:117-160), with their fields. They only return a stored `double`, and the model does not cover floating point.
- The `<iostream>` include (RunParams.h:8). Nothing in RunParams.h uses it; the constructor definition, which is not part of this model, may.
- The DAQ histogram naming ("Ind_x" for channels 0-31, "Col_x" for 32-63; RunParams.h:17-20, 108). It is a driver convention with no code in the class. That `nChans` is even is not part of `TablesValid`.
- The width of C++ `unsigned` and `int` is taken to be 32 bits. `std::vector::at` takes a `size_t`, to which the 32-bit value converts without change.
- PixyRoimux.RunParams.AbsolutePixelCoor: returns the sum as an unbounded integer. The source leaves this addition to its callers, so no `int` overflow is modelled for it.
