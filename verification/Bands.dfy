/** Band and spacing settings of fmr_core.cpp: the limits the tuner reports, checks and searches. */
module Bands {

  const FM_BAND_UE := 1
  const FM_BAND_JAPAN := 2
  const FM_BAND_JAPANW := 3
  const FM_BAND_SPECIAL := 4

  // ---- The grids built into FMR_seek and FMR_scan

  datatype Band = Ue | Japan | JapanWide

  function SpaceOf(seekSpace: int): int {
    if seekSpace == 5 then 5 else if seekSpace == 2 then 20 else 10
  }

  function LowOf(b: Band): int { if b == Ue then 8750 else 7600 }

  function HighOf(b: Band): int { if b == Japan then 9600 else 10800 }

  function ChannelsOf(b: Band, seekSpace: int): nat {
    (HighOf(b) - LowOf(b)) / SpaceOf(seekSpace) + 1
  }

  function NfOf(b: Band, seekSpace: int): int {
    (match b case Ue => 410 case Japan => 400 case JapanWide => 640) / SpaceOf(seekSpace)
  }

  function BandOf(band: int): Band {
    if band == FM_BAND_JAPAN then Japan else if band == FM_BAND_JAPANW then JapanWide else Ue
  }

  /** The band's grids at 50, 100 and 200 kHz, and their five segments: they end every 4.1 MHz in Europe, 4 MHz
      in Japan and 6.4 MHz in wide Japan; at 200 kHz, Europe's end every 4 MHz and leave two channels over. */
  lemma FiveSegments(b: Band, seekSpace: int)
    ensures SpaceOf(seekSpace) == if seekSpace == 5 then 5 else if seekSpace == 2 then 20 else 10
    ensures NfOf(b, seekSpace) * SpaceOf(seekSpace)
         == match b case Ue => (if seekSpace == 2 then 400 else 410) case Japan => 400 case JapanWide => 640
    ensures ChannelsOf(b, seekSpace) == 5 * NfOf(b, seekSpace) + if b == Ue && seekSpace == 2 then 3 else 1
    ensures LowOf(b) + SpaceOf(seekSpace) * (ChannelsOf(b, seekSpace) - 1)
         == match b case Ue => (if seekSpace == 2 then 10790 else 10800) case Japan => 9600 case JapanWide => 10800
  {
  }

  // ---- Settings

  /** The part of struct CUST_cfg_ds that the searches read. */
  datatype Cfg = Cfg(band: int, low: int, high: int, lowCust: int, highCust: int, spaceCust: int, seekSpace: int) {

    /** FMR_get_band_boundary. */
    function Boundary(): (int, int) {
      if band != FM_BAND_SPECIAL then (low, high) else (lowCust, highCust)
    }

    /** The limits FMR_seek computes for itself, in 16-bit variables. */
    function SeekLimits(): (int, int) {
      if band != FM_BAND_SPECIAL then (LowOf(BandOf(band)), HighOf(BandOf(band)))
      else (lowCust % 0x1_0000, highCust % 0x1_0000)
    }

    /** The spacing FMR_seek computes for itself, in an 8-bit variable. */
    function SeekSpacing(): int {
      if band != FM_BAND_SPECIAL then SpaceOf(seekSpace) else spaceCust % 0x100
    }
  }

  /** cust_get_cfg on the zeroed structure. */
  function Initial(seekSpace: int): Cfg { Cfg(FM_BAND_UE, 8750, 10800, 0, 0, 0, seekSpace) }

  datatype Call = SetRegion(region: int) | SetBand(lo: int, hi: int) | SetSpace(sp: int)

  function Apply(c: Cfg, call: Call): Cfg {
    match call
    case SetBand(lo, hi) => c.(lowCust := lo, highCust := hi)
    case SetSpace(sp) => c.(spaceCust := sp)
    case SetRegion(r) =>
      if r == FM_BAND_JAPAN then c.(band := r, low := 7600, high := 9600)
      else if r == FM_BAND_JAPANW then c.(band := r, low := 7600, high := 10800)
      else if r == FM_BAND_UE then c.(band := r, low := 8750, high := 10800)
      else c.(band := r)
  }

  function Run(c: Cfg, calls: seq<Call>): Cfg {
    if calls == [] then c else Apply(Run(c, calls[..|calls| - 1]), calls[|calls| - 1])
  }

  /** The last region among the three fixed ones that was selected; Europe at first. */
  function LastFixed(calls: seq<Call>): (r: int)
    ensures FM_BAND_UE <= r <= FM_BAND_JAPANW
  {
    if calls == [] then FM_BAND_UE
    else
      var last := calls[|calls| - 1];
      if last.SetRegion? && FM_BAND_UE <= last.region <= FM_BAND_JAPANW then last.region
      else LastFixed(calls[..|calls| - 1])
  }

  lemma {:induction false} StoredLimits(seekSpace: int, calls: seq<Call>)
    ensures var c := Run(Initial(seekSpace), calls);
            && c.low == LowOf(BandOf(LastFixed(calls))) && c.high == HighOf(BandOf(LastFixed(calls)))
            && (FM_BAND_UE <= c.band <= FM_BAND_JAPANW ==> c.band == LastFixed(calls))
  {
    if calls != [] {
      StoredLimits(seekSpace, calls[..|calls| - 1]);
    }
  }

  /** The limits given last, zero at first. */
  function LastGiven(calls: seq<Call>): (int, int) {
    if calls == [] then (0, 0)
    else
      var last := calls[|calls| - 1];
      if last.SetBand? then (last.lo, last.hi) else LastGiven(calls[..|calls| - 1])
  }

  /** Reported are the limits of the last fixed region, or in the custom region those given last. */
  lemma {:induction false} ReportedLimits(seekSpace: int, calls: seq<Call>)
    ensures var c := Run(Initial(seekSpace), calls);
            && (c.lowCust, c.highCust) == LastGiven(calls)
            && c.Boundary() == if c.band == FM_BAND_SPECIAL then LastGiven(calls)
                               else match LastFixed(calls)
                                    case 1 => (8750, 10800)
                                    case 2 => (7600, 9600)
                                    case _ => (7600, 10800)
  {
    StoredLimits(seekSpace, calls);
    if calls != [] {
      ReportedLimits(seekSpace, calls[..|calls| - 1]);
    }
  }

  /** After any calls, FMR_seek searches the limits that FMR_get_band_boundary reports (and FMR_tune
      checks) exactly when the region is one of the three fixed ones, or the custom band fits in 16
      bits, or an unknown region was selected while Europe was the last fixed one. */
  lemma LimitsAgree(seekSpace: int, calls: seq<Call>)
    ensures var c := Run(Initial(seekSpace), calls);
            c.SeekLimits() == c.Boundary() <==>
              || FM_BAND_UE <= c.band <= FM_BAND_JAPANW
              || (c.band == FM_BAND_SPECIAL && 0 <= c.lowCust < 0x1_0000 && 0 <= c.highCust < 0x1_0000)
              || (!(FM_BAND_UE <= c.band <= FM_BAND_SPECIAL) && LastFixed(calls) == FM_BAND_UE)
  {
    StoredLimits(seekSpace, calls);
  }

  /** They do disagree: an unknown region after Japan is reported with Japan's limits but searched with
      Europe's. */
  lemma LimitsDisagree(seekSpace: int)
    ensures var c := Run(Initial(seekSpace), [SetRegion(FM_BAND_JAPAN), SetRegion(0)]);
            c.Boundary() == (7600, 9600) && c.SeekLimits() == (8750, 10800)
  {
    var first, calls := [SetRegion(FM_BAND_JAPAN)], [SetRegion(FM_BAND_JAPAN), SetRegion(0)];
    assert calls[..|calls| - 1] == first && first[..|first| - 1] == [];
    assert Run(Initial(seekSpace), first) == Apply(Initial(seekSpace), SetRegion(FM_BAND_JAPAN));
  }

  /** So they agree in every state the HIDL service can reach with 16-bit limits: it passes only the
      four known regions. */
  lemma {:induction false} ServiceLimitsAgree(seekSpace: int, calls: seq<Call>)
    requires forall k :: 0 <= k < |calls| && calls[k].SetRegion? ==> FM_BAND_UE <= calls[k].region <= FM_BAND_SPECIAL
    requires forall k :: 0 <= k < |calls| && calls[k].SetBand? ==>
               0 <= calls[k].lo < 0x1_0000 && 0 <= calls[k].hi < 0x1_0000
    ensures var c := Run(Initial(seekSpace), calls);
            && c.SeekLimits() == c.Boundary() && FM_BAND_UE <= c.band <= FM_BAND_SPECIAL
            && 0 <= c.lowCust < 0x1_0000 && 0 <= c.highCust < 0x1_0000
  {
    if calls != [] {
      ServiceLimitsAgree(seekSpace, calls[..|calls| - 1]);
    }
    LimitsAgree(seekSpace, calls);
  }
}
