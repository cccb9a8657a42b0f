/**
 * The five-band colour scales of the survey plots. Band 0 is the strongest
 * signal and band 4 the weakest; the thresholds are -65, -75, -85 and -95 dBm.
 * The averaging scripts' `rssi_to_color` puts every threshold value in the
 * weaker band; the single-reading builder's `get_color` does the same except
 * at -65, which it puts in the strongest band.
 */
module ColorBands {

  /** The colours of `rssi_to_color`, strongest band first. */
  const AveragePalette: seq<string> := ["#00A86B", "#66CDAA", "#FFD700", "#FF7F7F", "#FF0000"]

  /** The colours of `get_color`, strongest band first. */
  const BuilderPalette: seq<string> := ["#4CBB17", "#90EE90", "#FFFF00", "#FFB6C1", "#FF0000"]

  /**
   * The band of a reading on the averaging scripts' scale: how many of the
   * thresholds it is at or below.
   */
  function Band(rssi: real): (b: nat)
    ensures b < 5
  {
    (if rssi <= -65.0 then 1 else 0) + (if rssi <= -75.0 then 1 else 0)
      + (if rssi <= -85.0 then 1 else 0) + (if rssi <= -95.0 then 1 else 0)
  }

  /** The band of a reading on the builder's scale: -65 itself counts as above the first threshold. */
  function BuilderBand(rssi: real): (b: nat)
    ensures b < 5
  {
    (if rssi < -65.0 then 1 else 0) + (if rssi <= -75.0 then 1 else 0)
      + (if rssi <= -85.0 then 1 else 0) + (if rssi <= -95.0 then 1 else 0)
  }

  /** The colour chain of the averaging scripts: it picks the colour of the reading's band. */
  function RssiToColor(rssi: real): (c: string)
    ensures c == AveragePalette[Band(rssi)]
    ensures forall k :: 0 <= k < |AveragePalette| ==> (c == AveragePalette[k] <==> k == Band(rssi))
  {
    if rssi > -65.0 then "#00A86B"
    else if -75.0 < rssi <= -65.0 then "#66CDAA"
    else if -85.0 < rssi <= -75.0 then "#FFD700"
    else if -95.0 < rssi <= -85.0 then "#FF7F7F"
    else "#FF0000"
  }

  /** The colour chain of the single-reading builder: it picks the colour of the reading's builder band. */
  function GetColor(rssi: real): (c: string)
    ensures c == BuilderPalette[BuilderBand(rssi)]
    ensures forall k :: 0 <= k < |BuilderPalette| ==> (c == BuilderPalette[k] <==> k == BuilderBand(rssi))
  {
    if rssi >= -65.0 then "#4CBB17"
    else if -75.0 < rssi < -65.0 then "#90EE90"
    else if -85.0 < rssi <= -75.0 then "#FFFF00"
    else if -95.0 < rssi <= -85.0 then "#FFB6C1"
    else "#FF0000"
  }

  /** A stronger reading never gets a weaker band, on either scale. */
  lemma BandsMonotone(a: real, b: real)
    requires a <= b
    ensures Band(b) <= Band(a)
    ensures BuilderBand(b) <= BuilderBand(a)
  {
  }

  /** Each band is an interval: a reading is in band k exactly when it lies between the band's thresholds. */
  lemma BandIntervals(rssi: real)
    ensures Band(rssi) == 0 <==> rssi > -65.0
    ensures Band(rssi) == 1 <==> -75.0 < rssi <= -65.0
    ensures Band(rssi) == 2 <==> -85.0 < rssi <= -75.0
    ensures Band(rssi) == 3 <==> -95.0 < rssi <= -85.0
    ensures Band(rssi) == 4 <==> rssi <= -95.0
  {
  }

  /** The two scales put a reading in the same band exactly when the reading is not -65. */
  lemma ClassifiersAgreeExceptAtMinus65(rssi: real)
    ensures Band(rssi) == BuilderBand(rssi) <==> rssi != -65.0
    ensures rssi == -65.0 ==> Band(rssi) == 1 && BuilderBand(rssi) == 0
  {
  }

  /** Threshold values: each falls in the weaker band on the averaging scale. */
  lemma AverageBoundaries()
    ensures RssiToColor(-65.0) == "#66CDAA"
    ensures RssiToColor(-75.0) == "#FFD700"
    ensures RssiToColor(-85.0) == "#FF7F7F"
    ensures RssiToColor(-95.0) == "#FF0000"
  {
  }

  /** Threshold values on the builder scale: -65 is strongest, and -95 and below are red. */
  lemma BuilderBoundaries(rssi: real)
    ensures GetColor(-65.0) == "#4CBB17"
    ensures GetColor(-75.0) == "#FFFF00"
    ensures GetColor(-85.0) == "#FFB6C1"
    ensures rssi <= -95.0 ==> GetColor(rssi) == "#FF0000"
  {
  }
}
