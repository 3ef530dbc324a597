/** The channel and bandwidth record of the Wi-Fi test library (libwifitest.c). */
module WifiChannel {
  import opened Common

  datatype Define = Primary | Center

  const BW_20MHZ := 0
  const BW_40MHZ := 1
  const BW_80MHZ := 4
  const BW_160MHZ := 5
  const BW_NUM := 6

  /** 5 MHz channel numbers between a primary channel and the centre of its bandwidth. */
  function Offset(bw: int): nat {
    if bw == BW_40MHZ then 2 else if bw == BW_80MHZ then 4 else if bw == BW_160MHZ then 8 else 0
  }

  /** Centre frequency in kHz of a channel number, in 32 bits: section 17.3.8.4.2 of IEEE Std 802.11-2016
      for 5 GHz, and the 2.4 GHz channels. */
  function FreqOf(no: int): Option<int> {
    if no < 0 then None
    else if no <= 13 then Some(2412000 + (no - 1) * 5000)
    else if no == 14 then Some(2484000)
    else if no >= 36 then Some((5180000 + (no - 36) * 5000) % TWO32)
    else None
  }

  /** Conversions between int and the record's uint32_t. */
  function Unsigned(no: int): int { no % TWO32 }

  function Signed(no: int): int { if no % TWO32 >= 0x8000_0000 then no % TWO32 - TWO32 else no % TWO32 }

  /** Channel number recorded for a frequency given in MHz. */
  function NumberOf(mhz: int): int {
    if 2412 <= mhz <= 2472 then (mhz - 2412) / 5 + 1
    else if mhz == 2484 then 14
    else if mhz == 3665 then 133
    else if mhz == 3685 then 137
    else if 4915 <= mhz <= 4980 then (mhz - 4915) / 5 + 183
    else if 5170 <= mhz <= 5825 then (mhz - 5170) / 5 + 34
    else -1
  }

  /** A channel number comes back from its own frequency exactly for the 2.4 GHz channels 1 to 14 and the
      5 GHz channels 36 to 165. */
  lemma ChannelRoundTrip(no: int)
    ensures FreqOf(no).Some? && NumberOf(FreqOf(no).value / 1000) == no <==> 1 <= no <= 14 || 36 <= no <= 165
  {
    assert FreqOf(no).Some? ==> NumberOf(FreqOf(no).value / 1000) <= 196;
  }

  /** From channel 36 the centres lie 10, 20 and 40 MHz higher at 40, 80 and 160 MHz. */
  lemma CentreOffsets()
    ensures FreqOf(36 + Offset(BW_20MHZ)) == Some(5180000) && FreqOf(36 + Offset(BW_40MHZ)) == Some(5190000)
    ensures FreqOf(36 + Offset(BW_80MHZ)) == Some(5200000) && FreqOf(36 + Offset(BW_160MHZ)) == Some(5220000)
    ensures FreqOf(36 + Offset(2)) == FreqOf(36 + Offset(3)) == Some(5180000)
  {
  }

  /** A library call with the driver's verdicts on it: `take` for the call itself, `retune` for the channel
      update a bandwidth change may cause. */
  datatype Call =
    | SetBandwidth(bw: nat, take: bool, retune: bool)
    | PrimaryChannel(no: int, take: bool)
    | Channel(no: int, take: bool)
    | SetFrequency(mhz: nat, offset: nat, take: bool)

  /** g_sChannel, eWifiBw, and the last frequency the driver accepted. */
  datatype Record = Record(def: Define, no: int, bw: int, wifiBw: int, accepted: Option<int>) {

    /** A primary record describes the frequency in use: its channel moved to the centre of its bandwidth. */
    predicate Consistent() {
      && 0 <= no < TWO32
      && (accepted.Some? && def == Primary ==> accepted == FreqOf(Signed(no) + Offset(bw)))
    }
  }

  function Initial(): Record { Record(Primary, 0, BW_20MHZ, BW_20MHZ, None) }

  // ---- The calls on values

  function AfterChannel(r: Record, no: int, take: bool): Record {
    if take && FreqOf(no).Some? then Record(Center, Unsigned(no), r.wifiBw, r.wifiBw, FreqOf(no)) else r
  }

  function AfterPrimary(r: Record, no: int, take: bool): Record {
    var f := FreqOf(no + Offset(r.wifiBw));
    if take && f.Some? then Record(Primary, Unsigned(no), r.wifiBw, r.wifiBw, f) else r
  }

  function AfterBandwidth(r: Record, bw: nat, take: bool, retune: bool): Record {
    if bw >= BW_NUM || !take then r
    else if r.def == Primary && r.bw != bw then AfterPrimary(r.(wifiBw := bw), Signed(r.no), retune)
    else r.(wifiBw := bw)
  }

  function AfterFrequency(r: Record, mhz: nat, offset: nat, take: bool): Record {
    if offset == 0 && take
    then Record(Center, Unsigned(NumberOf(mhz)), r.wifiBw, r.wifiBw, Some(mhz * 1000 % TWO32)) else r
  }

  function After(r: Record, c: Call): Record {
    match c
    case SetBandwidth(bw, take, retune) => AfterBandwidth(r, bw, take, retune)
    case PrimaryChannel(no, take) => AfterPrimary(r, no, take)
    case Channel(no, take) => AfterChannel(r, no, take)
    case SetFrequency(mhz, offset, take) => AfterFrequency(r, mhz, offset, take)
  }

  function Run(calls: seq<Call>): Record {
    if calls == [] then Initial() else After(Run(calls[..|calls| - 1]), calls[|calls| - 1])
  }

  /** Channel numbers are C ints. */
  predicate IsInt(no: int) { -0x8000_0000 <= no < 0x8000_0000 }

  lemma SignedUnsigned(no: int)
    requires IsInt(no)
    ensures 0 <= Unsigned(no) < TWO32 && Signed(Unsigned(no)) == no
  {
    assert no < 0 ==> no % TWO32 == no + TWO32;
  }

  lemma UnsignedSigned(no: int)
    requires 0 <= no < TWO32
    ensures IsInt(Signed(no)) && Unsigned(Signed(no)) == no
  {
    assert no >= 0x8000_0000 ==> (no - TWO32) % TWO32 == no;
  }

  /** In every reachable state the record is consistent, whatever the driver accepts or refuses: also after
      a refused re-tune, where it keeps describing the old bandwidth. */
  lemma {:induction false} AlwaysConsistent(calls: seq<Call>)
    requires forall k :: 0 <= k < |calls| && calls[k].PrimaryChannel? ==> IsInt(calls[k].no)
    ensures Run(calls).Consistent()
  {
    if calls != [] {
      var c, r := calls[|calls| - 1], Run(calls[..|calls| - 1]);
      AlwaysConsistent(calls[..|calls| - 1]);
      if c.PrimaryChannel? {
        SignedUnsigned(c.no);
      } else if c.SetBandwidth? {
        UnsignedSigned(r.no);
      }
    }
  }

  /** A bandwidth change that is taken leaves record and bandwidth apart only for a centre record, or when
      the re-tune was refused or impossible; otherwise the primary channel is kept and re-centred. */
  lemma BandwidthRecentres(r: Record, bw: nat, retune: bool)
    requires r.Consistent() && r.def == Primary && bw < BW_NUM
    ensures var t := After(r, SetBandwidth(bw, true, retune));
            && t.wifiBw == bw && t.def == Primary && t.no == r.no
            && (t.bw == bw <==> r.bw == bw || (retune && FreqOf(Signed(r.no) + Offset(bw)).Some?))
  {
    UnsignedSigned(r.no);
  }

  /** Setting the frequency of a channel records what setting the channel records: its number, as a centre, and
      that frequency. */
  lemma FrequencyOfChannel(r: Record, no: int)
    requires 1 <= no <= 14 || 36 <= no <= 165
    ensures var t := After(r, Channel(no, true));
            && t == After(r, SetFrequency(FreqOf(no).value / 1000, 0, true))
            && t.def == Center && t.no == no && t.bw == r.wifiBw && t.accepted == FreqOf(no)
  {
    ChannelRoundTrip(no);
    assert FreqOf(no).value / 1000 * 1000 == FreqOf(no).value;
  }

  // ---- The library's static state

  class Library {
    var r: Record

    constructor ()
      ensures r == Initial()
    {
      r := Initial();
    }

    /** WIFI_TEST_Channel. */
    method SetChannel(no: int, take: bool) returns (ok: bool)
      modifies this
      ensures r == AfterChannel(old(r), no, take) && ok == (take && FreqOf(no).Some?)
    {
      ok := false;
      var f := FreqOf(no);
      if f.Some? && take {
        r := r.(def := Center, no := Unsigned(no), bw := r.wifiBw, accepted := f);
        ok := true;
      }
    }

    /** WIFI_TEST_PrimaryChannel: the record written by the centre-channel call is overwritten. */
    method SetPrimary(no: int, take: bool) returns (ok: bool)
      modifies this
      ensures r == AfterPrimary(old(r), no, take)
      ensures ok == (take && FreqOf(no + Offset(old(r.wifiBw))).Some?)
    {
      ok := SetChannel(no + Offset(r.wifiBw), take);
      if ok {
        r := r.(def := Primary, no := Unsigned(no), bw := r.wifiBw);
      }
    }

    /** WIFI_TEST_SetBandwidth. */
    method ChangeBandwidth(bw: nat, take: bool, retune: bool) returns (ok: bool)
      modifies this
      ensures r == AfterBandwidth(old(r), bw, take, retune) && ok == (bw < BW_NUM && take)
    {
      ok := false;
      if bw < BW_NUM && take {
        r := r.(wifiBw := bw);
        if r.def == Primary && r.bw != r.wifiBw {
          var _ := SetPrimary(Signed(r.no), retune);
        }
        ok := true;
      }
    }

    /** WIFI_TEST_SetFrequency. */
    method ChangeFrequency(mhz: nat, offset: nat, take: bool) returns (ok: bool)
      modifies this
      ensures r == AfterFrequency(old(r), mhz, offset, take) && ok == (offset == 0 && take)
    {
      ok := false;
      if offset == 0 && take {
        r := r.(accepted := Some(mhz * 1000 % TWO32));
        r := r.(def := Center, no := Unsigned(NumberOf(mhz)), bw := r.wifiBw);
        ok := true;
      }
    }
  }
}
