/**
 * The run-dependent maps of the VIPER pixel readout (namespace pixy_roimux).
 *
 * A `RunParams` object holds, for one run, the wiring between DAQ channels and
 * readout channels in both directions, the coordinates of the pixels and of the
 * regions of interest (ROIs), and the channel counts. The readout index space
 * [0, nChans) is split into pixels [0, nPixels) and ROIs [nPixels, nChans); an
 * ROI's own index is its readout index less nPixels. Every indexed accessor
 * (Daq2Pixel, Pixel2Daq, Daq2Roi, Roi2Daq, GetPixelCoor, GetRoiCoor) reads through
 * `std::vector::at`, so an index past the end of a table raises `OutOfRange`
 * instead of being clamped. The scalar getters return a field as a `u32` and
 * cannot fail.
 */
module PixyRoimux {
  import opened Unsigned
  import ChannelMap

  /** Number of coordinates per pixel or ROI (x and y). */
  const Dims: nat := 2

  /** The exception `std::vector::at` raises for an index past the end. */
  datatype Error = OutOfRange

  /** What an indexed accessor gives back: the value read, or the exception raised. */
  datatype Result<T> = Ok(value: T) | Err(error: Error)

  /** `std::vector::at`: the element at `i`, or `OutOfRange` when `i` is not an index of `s`. */
  function At<T>(s: seq<T>, i: int): (r: Result<T>)
    ensures r.Ok? <==> 0 <= i < |s|
    ensures r.Ok? ==> r.value == s[i]
  {
    if 0 <= i < |s| then Ok(s[i]) else Err(OutOfRange)
  }

  class RunParams {
    /** The run the maps were generated for. */
    const runId: u32
    const nPixels: u32
    const nRois: u32
    /** Total number of readout channels. */
    const nChans: u32
    /** Location of the anode in histogram samples. */
    const anodeSample: u32
    /** DAQ channel to readout channel. */
    const daq2readout: seq<u32>
    /** Readout channel to DAQ channel. */
    const readout2daq: seq<u32>
    /** Per pixel, its (x, y) offset inside its ROI, in units of the pixel pitch. */
    const pixelCoor: seq<seq<i32>>
    /** Per ROI, the (x, y) position of its pixel 0, in units of the pixel pitch. */
    const roiCoor: seq<seq<i32>>

    /**
     * What the constructor establishes: the readout channels are the pixels followed
     * by the ROIs, the inverse table undoes the forward one, there is one coordinate
     * pair per pixel and per ROI, and pixel 0 is the origin of its ROI.
     */
    static ghost predicate TablesValid(nPixels: u32, nRois: u32, nChans: u32,
                                       daq2readout: seq<u32>, readout2daq: seq<u32>,
                                       pixelCoor: seq<seq<i32>>, roiCoor: seq<seq<i32>>)
    {
      && 0 < nPixels
      && nChans as int == nPixels as int + nRois as int
      && ChannelMap.InvertsForward(daq2readout, readout2daq, nChans as nat)
      && |pixelCoor| == nPixels as int
      && |roiCoor| == nRois as int
      && (forall p :: 0 <= p < |pixelCoor| ==> |pixelCoor[p]| == Dims)
      && (forall q :: 0 <= q < |roiCoor| ==> |roiCoor[q]| == Dims)
      && pixelCoor[0] == [0, 0]
    }

    ghost predicate Valid()
    {
      TablesValid(nPixels, nRois, nChans, daq2readout, readout2daq, pixelCoor, roiCoor)
    }

    /**
     * The C++ constructor selects these tables from the run id in a body that is not
     * part of this model; here they are its parameters.
     */
    constructor (runId: u32, nPixels: u32, nRois: u32, nChans: u32, anodeSample: u32,
                 daq2readout: seq<u32>, readout2daq: seq<u32>,
                 pixelCoor: seq<seq<i32>>, roiCoor: seq<seq<i32>>)
      requires TablesValid(nPixels, nRois, nChans, daq2readout, readout2daq, pixelCoor, roiCoor)
      ensures Valid()
      ensures GetRunId() == runId && GetAnodeSample() == anodeSample
      ensures GetNPixels() == nPixels && GetNRois() == nRois && GetNChans() == nChans
      ensures this.daq2readout == daq2readout && this.readout2daq == readout2daq
      ensures this.pixelCoor == pixelCoor && this.roiCoor == roiCoor
    {
      this.runId := runId;
      this.nPixels := nPixels;
      this.nRois := nRois;
      this.nChans := nChans;
      this.anodeSample := anodeSample;
      this.daq2readout := daq2readout;
      this.readout2daq := readout2daq;
      this.pixelCoor := pixelCoor;
      this.roiCoor := roiCoor;
    }

    /** `daq2pixel`: the readout channel wired to a DAQ channel. */
    function Daq2Pixel(daqChan: u32): (r: Result<u32>)
      ensures r.Ok? <==> daqChan as int < |daq2readout|
      ensures r.Ok? ==> r.value == daq2readout[daqChan]
      ensures Valid() ==> (r.Ok? <==> daqChan < nChans) && (r.Ok? ==> r.value < nChans)
    {
      At(daq2readout, daqChan as int)
    }

    /** `pixel2daq`: the DAQ channel wired to a readout channel. */
    function Pixel2Daq(pixelInd: u32): (r: Result<u32>)
      ensures r.Ok? <==> pixelInd as int < |readout2daq|
      ensures r.Ok? ==> r.value == readout2daq[pixelInd]
      ensures Valid() ==> (r.Ok? <==> pixelInd < nChans) && (r.Ok? ==> r.value < nChans)
    {
      ChannelMap.BijectionWhenInverted(daq2readout, readout2daq, nChans as nat);
      At(readout2daq, pixelInd as int)
    }

    /**
     * `daq2roi`: the readout channel of a DAQ channel less nPixels, in `unsigned`
     * arithmetic. Only the DAQ channel is checked; a pixel channel wraps around.
     */
    function Daq2Roi(daqChan: u32): (r: Result<u32>)
      ensures r.Ok? <==> daqChan as int < |daq2readout|
      ensures r.Ok? && nPixels <= daq2readout[daqChan] ==>
                r.value as int == daq2readout[daqChan] as int - nPixels as int
      ensures r.Ok? && daq2readout[daqChan] < nPixels ==>
                r.value as int == daq2readout[daqChan] as int - nPixels as int + MOD32
      ensures Valid() ==> (r.Ok? <==> daqChan < nChans)
      ensures Valid() && r.Ok? && nPixels <= daq2readout[daqChan] ==> r.value < nRois
    {
      match At(daq2readout, daqChan as int)
      case Ok(readout) => Ok(Sub32(readout, nPixels))
      case Err(e) => Err(e)
    }

    /**
     * `roi2daq`: the DAQ channel of readout channel roiInd + nPixels, the sum taken in
     * `unsigned` arithmetic before the table is indexed.
     */
    function Roi2Daq(roiInd: u32): (r: Result<u32>)
      ensures roiInd as int + nPixels as int < MOD32 ==>
                && (r.Ok? <==> roiInd as int + nPixels as int < |readout2daq|)
                && (r.Ok? ==> r.value == readout2daq[roiInd as int + nPixels as int])
      ensures roiInd as int + nPixels as int >= MOD32 ==>
                && (r.Ok? <==> roiInd as int + nPixels as int - MOD32 < |readout2daq|)
                && (r.Ok? ==> r.value == readout2daq[roiInd as int + nPixels as int - MOD32])
      ensures Valid() && roiInd < nRois ==> r.Ok?
      ensures Valid() && nRois <= roiInd && roiInd as int + nPixels as int < MOD32 ==> r.Err?
    {
      At(readout2daq, Add32(roiInd, nPixels) as int)
    }

    /** `getPixelCoor`: coordinate `dim` of a pixel, relative to pixel 0 of its ROI. */
    function GetPixelCoor(pixelInd: u32, dim: u32): (r: Result<i32>)
      ensures r.Ok? <==> pixelInd as int < |pixelCoor| && dim as int < |pixelCoor[pixelInd]|
      ensures r.Ok? ==> r.value == pixelCoor[pixelInd][dim]
      ensures Valid() ==> (r.Ok? <==> pixelInd < nPixels && dim as int < Dims)
    {
      match At(pixelCoor, pixelInd as int)
      case Ok(coor) => At(coor, dim as int)
      case Err(e) => Err(e)
    }

    /** `getRoiCoor`: coordinate `dim` of an ROI's pixel 0 on the readout plane. */
    function GetRoiCoor(roiInd: u32, dim: u32): (r: Result<i32>)
      ensures r.Ok? <==> roiInd as int < |roiCoor| && dim as int < |roiCoor[roiInd]|
      ensures r.Ok? ==> r.value == roiCoor[roiInd][dim]
      ensures Valid() ==> (r.Ok? <==> roiInd < nRois && dim as int < Dims)
    {
      match At(roiCoor, roiInd as int)
      case Ok(coor) => At(coor, dim as int)
      case Err(e) => Err(e)
    }

    /**
     * The absolute coordinate of a pixel in an ROI, as the class documents it: the
     * ROI's coordinate plus the pixel's. The C++ class leaves this sum to its callers.
     */
    function AbsolutePixelCoor(roiInd: u32, pixelInd: u32, dim: u32): (r: Result<int>)
      ensures r.Ok? <==> GetRoiCoor(roiInd, dim).Ok? && GetPixelCoor(pixelInd, dim).Ok?
      ensures Valid() ==> (r.Ok? <==> roiInd < nRois && pixelInd < nPixels && dim as int < Dims)
      ensures r.Ok? ==> r.value - GetRoiCoor(roiInd, dim).value == GetPixelCoor(pixelInd, dim).value
    {
      match GetRoiCoor(roiInd, dim)
      case Err(e) => Err(e)
      case Ok(offset) =>
        match GetPixelCoor(pixelInd, dim)
        case Err(e) => Err(e)
        case Ok(relative) => Ok(offset as int + relative as int)
    }

    /** `getRunId`: the run the maps were generated for; the field is const. */
    function GetRunId(): (r: u32)
      ensures r == runId
    {
      runId
    }

    /** `getNPixels`: the number of pixels, the size of the pixel coordinate table. */
    function GetNPixels(): (r: u32)
      ensures r == nPixels
      ensures Valid() ==> 0 < r <= nChans && r as int == |pixelCoor|
    {
      nPixels
    }

    /** `getNRois`: the number of ROIs, the readout channels that are not pixels. */
    function GetNRois(): (r: u32)
      ensures r == nRois
      ensures Valid() ==> r as int == nChans as int - nPixels as int && r as int == |roiCoor|
    {
      nRois
    }

    /** `getNChans`: the number of readout channels, which is also the number of DAQ channels. */
    function GetNChans(): (r: u32)
      ensures r == nChans
      ensures Valid() ==> r as int == nPixels as int + nRois as int
      ensures Valid() ==> r as int == |daq2readout| == |readout2daq|
    {
      nChans
    }

    /** `getAnodeSample`: the histogram sample at which the anode sits. */
    function GetAnodeSample(): (r: u32)
      ensures r == anodeSample
    {
      anodeSample
    }
  }

  /** Going from a DAQ channel to its readout channel and back gives the DAQ channel. */
  lemma PixelRoundTrip(rp: RunParams, daqChan: u32)
    requires rp.Valid() && daqChan < rp.nChans
    ensures rp.Daq2Pixel(daqChan).Ok?
    ensures rp.Pixel2Daq(rp.Daq2Pixel(daqChan).value) == Ok(daqChan)
  {
  }

  /** Going from a readout channel to its DAQ channel and back gives the readout channel. */
  lemma ReadoutRoundTrip(rp: RunParams, readout: u32)
    requires rp.Valid() && readout < rp.nChans
    ensures rp.Pixel2Daq(readout).Ok? && rp.Pixel2Daq(readout).value < rp.nChans
    ensures rp.Daq2Pixel(rp.Pixel2Daq(readout).value) == Ok(readout)
  {
    ChannelMap.InvertsForwardIsBijection(rp.daq2readout, rp.readout2daq, rp.nChans as nat);
  }

  /**
   * `roi2daq` undoes `daq2roi` on every DAQ channel, ROI or not: for a pixel channel
   * the subtraction wraps and the addition wraps back.
   */
  lemma RoiRoundTrip(rp: RunParams, daqChan: u32)
    requires rp.Valid() && daqChan < rp.nChans
    ensures rp.Daq2Roi(daqChan).Ok?
    ensures rp.Roi2Daq(rp.Daq2Roi(daqChan).value) == Ok(daqChan)
  {
    SubThenAdd(rp.daq2readout[daqChan], rp.nPixels);
  }

  /** `daq2roi` undoes `roi2daq` on every ROI. */
  lemma RoiInverseRoundTrip(rp: RunParams, roiInd: u32)
    requires rp.Valid() && roiInd < rp.nRois
    ensures rp.Roi2Daq(roiInd).Ok? && rp.Roi2Daq(roiInd).value < rp.nChans
    ensures rp.Daq2Roi(rp.Roi2Daq(roiInd).value) == Ok(roiInd)
  {
    ChannelMap.InvertsForwardIsBijection(rp.daq2readout, rp.readout2daq, rp.nChans as nat);
    AddThenSub(roiInd, rp.nPixels);
  }

  /**
   * Every DAQ channel is either a pixel or an ROI, never both: a pixel channel's wrapped
   * `daq2roi` result is past the last ROI.
   */
  lemma DaqChannelIsPixelOrRoi(rp: RunParams, daqChan: u32)
    requires rp.Valid() && daqChan < rp.nChans
    ensures rp.Daq2Pixel(daqChan).Ok? && rp.Daq2Roi(daqChan).Ok?
    ensures rp.Daq2Pixel(daqChan).value < rp.nPixels <==> rp.Daq2Roi(daqChan).value >= rp.nRois
  {
  }

  /**
   * `roi2daq` does not reject every index past the last ROI: one so large that adding
   * nPixels wraps around lands on a pixel and raises nothing.
   */
  lemma Roi2DaqWrapsIntoPixels(rp: RunParams, roiInd: u32)
    requires rp.Valid() && roiInd as int >= MOD32 - rp.nPixels as int
    ensures roiInd >= rp.nRois
    ensures rp.Roi2Daq(roiInd).Ok?
    ensures rp.Roi2Daq(roiInd) == rp.Pixel2Daq(Add32(roiInd, rp.nPixels))
    ensures Add32(roiInd, rp.nPixels) < rp.nPixels
  {
  }

  /** Pixel 0 is the origin of its ROI's coordinates. */
  lemma PixelZeroIsOrigin(rp: RunParams)
    requires rp.Valid()
    ensures rp.GetPixelCoor(0, 0) == Ok(0) && rp.GetPixelCoor(0, 1) == Ok(0)
  {
  }

  /** Pixel 0 of an ROI sits exactly at that ROI's coordinates. */
  lemma PixelZeroSitsAtRoiCoor(rp: RunParams, roiInd: u32, dim: u32)
    requires rp.Valid() && roiInd < rp.nRois && dim as int < Dims
    ensures rp.AbsolutePixelCoor(roiInd, 0, dim) == Ok(rp.GetRoiCoor(roiInd, dim).value as int)
  {
  }
}
