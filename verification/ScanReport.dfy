/** What a scan reports, over every band and spacing FMR_scan knows. */
module ScanReport {
  import opened Bands
  import opened Reading
  import opened ScanSpec
  import opened ScanFacts
  import opened ScanSort
  import opened Scan
  import opened SeekSpec

  const FM_SCAN_MAX_CH_SIZE := 200

  /** Channel i is in the report of a full scan. */
  ghost predicate Reported(pr: Profile, i: int)
    requires pr.nf > 0
  {
    0 <= i < |pr.air| && pr.Stored(i, |pr.air|) && !pr.Pruned(i, |pr.air|)
  }

  lemma {:induction false} EmitMembers(s: seq<Slot>, space: int, v: int)
    ensures v in Emit(s, space) <==> exists k :: 0 <= k < |s| && s[k].reserve == 1 && Unit(s[k].ch, space) == v
  {
    if s != [] {
      var n := |s| - 1;
      EmitMembers(s[..n], space, v);
      assert forall k :: 0 <= k < n ==> s[..n][k] == s[k];
      if s[n].reserve == 1 && Unit(s[n].ch, space) == v {
        assert v in Emit(s, space);
      }
    }
  }

  /** A table entry survives the sort. */
  lemma SortKeepsSlot(order: Order, s: seq<Slot>, t: seq<Slot>, x: Slot)
    requires StableSort(order, s, t)
    ensures x in s <==> x in t
  {
    StableSortPermutes(order, s, t);
    assert x in s <==> x in multiset(s);
    assert x in t <==> x in multiset(t);
  }

  /** A slot of the final table is reserved exactly if its channel is reported. */
  lemma SlotReported(pr: Profile, j: nat)
    requires pr.nf > 0 && j < |pr.Picks(|pr.air|)|
    ensures var s, i := pr.Slots(|pr.air|, |pr.air|)[j], pr.Picks(|pr.air|)[j];
            s.ch == pr.Freq(i) && (s.reserve == 1 <==> Reported(pr, i))
  {
    var n := |pr.air|;
    TableExact(pr, n);
    pr.PicksSaved(n);
    assert pr.Picks(n)[j] in pr.Picks(n);
  }

  /** The report lists exactly the channels that were stored and not pruned. */
  lemma ReportExact(pr: Profile, order: Order, out: seq<int>, v: int)
    requires pr.nf > 0 && ScanResult(pr, order, out)
    ensures v in out <==> exists i :: Reported(pr, i) && v == Unit(pr.Freq(i), pr.space)
  {
    var n := |pr.air|;
    var s := pr.Slots(n, n);
    var t: seq<Slot> :| StableSort(order, s, t) && out == Emit(t, pr.space);
    EmitMembers(t, pr.space, v);
    if v in out {
      var k: int :| 0 <= k < |t| && t[k].reserve == 1 && Unit(t[k].ch, pr.space) == v;
      SortKeepsSlot(order, s, t, t[k]);
      var j :| 0 <= j < |s| && s[j] == t[k];
      SlotReported(pr, j);
    }
    if i :| Reported(pr, i) && v == Unit(pr.Freq(i), pr.space) {
      TableExact(pr, n);
      assert i in pr.Picks(n);
      var j :| 0 <= j < |pr.Picks(n)| && pr.Picks(n)[j] == i;
      SlotReported(pr, j);
      SortKeepsSlot(order, s, t, s[j]);
    }
  }

  /** A band in which a weak station is reported although its segment's floor is far above it: channels 4
      and 5 rise across the close at 4, and the quiet channels 6 to 8 put the next floor at 100. */
  function Straddling(): Profile {
    var failed, quiet := Reading(false, false, 0, false), Reading(true, false, 100, false);
    Profile(8750, 10, 4, [], [failed, failed, failed, failed, Reading(true, true, 0, false),
                              Reading(true, true, 1, false), quiet, quiet, quiet])
  }

  lemma WeakStraddlerReported()
    ensures var pr := Straddling();
            Reported(pr, 5) && pr.Closes(8) && pr.Floor(8) == 100 && pr.Rssi(5) < pr.Floor(8) + NOISE_FLOOR_OFFSET
  {
    var pr := Straddling();
    assert !pr.Saved(3) && pr.Saved(4) && pr.Saved(5) && !pr.Saved(6);
    assert pr.Closes(4) && pr.Closes(8) && pr.RunStart(5) == 4;
    StraddlerEscapes(pr, 5, 4, 9);
    assert pr.LastClose(8) == 4;
    assert pr.PrevOk(8) == 7 && pr.PrevOk(7) == 6 && pr.PrevOk(6) == 5 && pr.PrevOk(5) == 4;
    assert pr.Window(8) && !pr.Window(7) && !pr.Window(6) && !pr.Window(5);
    assert pr.Samples(5, 6) == [] && pr.Samples(5, 7) == [] && pr.Samples(5, 8) == [];
    assert pr.Samples(5, 9) == [100];
    assert Sum([100]) == 100;
  }

  /** The report is a function of the readings and the sort order. */
  lemma ReportUnique(pr: Profile, order: Order, a: seq<int>, b: seq<int>)
    requires pr.nf > 0 && ScanResult(pr, order, a) && ScanResult(pr, order, b)
    ensures a == b
  {
    var s := pr.Slots(|pr.air|, |pr.air|);
    var t :| StableSort(order, s, t) && a == Emit(t, pr.space);
    var u :| StableSort(order, s, u) && b == Emit(u, pr.space);
    if order != Unsorted {
      StableSortUnique(order, t, u);
    }
  }

  // ---- FMR_scan's grids

  /** The sweep FMR_scan asks for. */
  ghost predicate FullScan(b: Band, seekSpace: int, pr: Profile) {
    pr.start == LowOf(b) && pr.space == SpaceOf(seekSpace) && pr.nf == NfOf(b, seekSpace)
    && |pr.air| == ChannelsOf(b, seekSpace)
  }

  /** The sweep FMR_scan makes under settings cfg; air[i] is what probing grid index i reports. */
  function SweepOf(cfg: Cfg, fakes: seq<FakeChannel>, air: seq<Reading>): Profile {
    var b := BandOf(cfg.band);
    Profile(LowOf(b), SpaceOf(cfg.seekSpace), NfOf(b, cfg.seekSpace), fakes, air)
  }

  /** Whatever the custom settings: from 87.5 MHz, or 76 MHz in the two Japanese regions, in steps of 50, 200 or
      100 kHz, up to 96 or 108 MHz. */
  lemma SweepExactly(cfg: Cfg, fakes: seq<FakeChannel>, air: seq<Reading>)
    requires |air| == ChannelsOf(BandOf(cfg.band), cfg.seekSpace)
    ensures var pr := SweepOf(cfg, fakes, air);
            && FullScan(BandOf(cfg.band), cfg.seekSpace, pr) && pr.fakes == fakes && pr.air == air
            && pr.start == (if cfg.band == 2 || cfg.band == 3 then 7600 else 8750)
            && pr.space == (if cfg.seekSpace == 5 then 5 else if cfg.seekSpace == 2 then 20 else 10)
            && pr.Freq(|air| - 1) <= (if cfg.band == 2 then 9600 else 10800) < pr.Freq(|air|)
  {
    FiveSegments(BandOf(cfg.band), cfg.seekSpace);
    var s := SpaceOf(cfg.seekSpace);
    assert s * |air| == s * (|air| - 1) + s;
  }

  /** Every grid of FMR_scan has segments, stays in its band and ends at its upper limit. */
  lemma GridInBand(b: Band, seekSpace: int, pr: Profile, i: nat)
    requires FullScan(b, seekSpace, pr) && i < |pr.air|
    ensures 0 < pr.nf <= 255 && LowOf(b) <= pr.Freq(i) <= HighOf(b) < 0x1_0000
    ensures i == |pr.air| - 1 ==> HighOf(b) - pr.Freq(i) < pr.space
  {
    var s := pr.space;
    assert s == 5 || s == 10 || s == 20;
    GridIndex(LowOf(b), HighOf(b), s, i);
    GridIndex(LowOf(b), HighOf(b), s, i + 1);
    assert s * (i + 1) == s * i + s;
  }

  /** Dividing by ten at 100 kHz spacing loses nothing. */
  lemma UnitLossless(b: Band, seekSpace: int, pr: Profile, i: nat)
    requires FullScan(b, seekSpace, pr) && i < |pr.air| && pr.space == 10
    ensures Unit(pr.Freq(i), pr.space) * 10 == pr.Freq(i)
  {
    assert pr.Freq(i) == 10 * (LowOf(b) / 10 + i);
  }

  /** The work table suffices for every profile exactly when the grid is not the 50 kHz one of the
      wide Japanese band. */
  lemma WorkTableSuffices(b: Band, seekSpace: int)
    ensures (forall pr :: FullScan(b, seekSpace, pr) ==> |pr.Picks(|pr.air|)| <= CQI_CH_NUM_MAX)
            <==> !(b == JapanWide && seekSpace == 5)
  {
    var n := ChannelsOf(b, seekSpace);
    var worst := Alternating(LowOf(b), SpaceOf(seekSpace), NfOf(b, seekSpace), n);
    HalfBoundTight(LowOf(b), SpaceOf(seekSpace), NfOf(b, seekSpace), n, n);
    assert FullScan(b, seekSpace, worst);
    forall pr | FullScan(b, seekSpace, pr) ensures |pr.Picks(|pr.air|)| <= |worst.Picks(n)| {
      HalfBound(pr, |pr.air|);
    }
  }

  lemma {:induction false} AlternatingQuiet(start: int, space: int, nf: int, n: nat, lo: nat, k: nat)
    requires k <= n
    ensures Alternating(start, space, nf, n).Samples(lo, k) == []
    decreases k
  {
    if lo < k {
      AlternatingQuiet(start, space, nf, n, lo, k - 1);
    }
  }

  lemma AlternatingKept(start: int, space: int, nf: int, n: nat, p: nat)
    requires nf > 0 && p < n && Alternating(start, space, nf, n).Saved(p)
    ensures !Alternating(start, space, nf, n).Pruned(p, n)
  {
    var pr := Alternating(start, space, nf, n);
    forall c | 0 <= c < n ensures !pr.PrunedAt(p, c) {
      AlternatingQuiet(start, space, nf, n, pr.LastClose(c) + 1, c + 1);
    }
  }

  lemma {:induction false} EmitAll(s: seq<Slot>, space: int)
    requires forall k :: 0 <= k < |s| ==> s[k].reserve == 1
    ensures |Emit(s, space)| == |s|
  {
    if s != [] {
      EmitAll(s[..|s| - 1], space);
    }
  }

  /** Nothing of the alternating profile is pruned, so its whole table is reported. */
  lemma AlternatingReport(start: int, space: int, nf: int, n: nat, out: seq<int>)
    requires nf > 0 && ScanResult(Alternating(start, space, nf, n), Unsorted, out)
    ensures |out| == (n + 1) / 2
  {
    var pr := Alternating(start, space, nf, n);
    var s := pr.Slots(n, n);
    pr.PicksSaved(n);
    forall k | 0 <= k < |s| ensures s[k].reserve == 1 {
      AlternatingKept(start, space, nf, n, pr.Picks(n)[k]);
    }
    EmitAll(s, space);
    HalfBoundTight(start, space, nf, n, n);
  }

  /** The service's 200-entry result table suffices for every profile exactly when the spacing is
      not 50 kHz. */
  lemma ResultTableSuffices(b: Band, seekSpace: int)
    ensures NfOf(b, seekSpace) > 0
    ensures (forall pr, order, out :: FullScan(b, seekSpace, pr) && ScanResult(pr, order, out)
                                      ==> |out| <= FM_SCAN_MAX_CH_SIZE)
            <==> seekSpace != 5
  {
    var n := ChannelsOf(b, seekSpace);
    var start, space, nf := LowOf(b), SpaceOf(seekSpace), NfOf(b, seekSpace);
    if seekSpace == 5 {
      var worst := Alternating(start, space, nf, n);
      var out := Emit(worst.Slots(n, n), space);
      assert StableSort(Unsorted, worst.Slots(n, n), worst.Slots(n, n));
      AlternatingReport(start, space, nf, n, out);
      assert FullScan(b, seekSpace, worst) && ScanResult(worst, Unsorted, out);
    } else {
      forall pr, order, out | FullScan(b, seekSpace, pr) && ScanResult(pr, order, out)
        ensures |out| <= FM_SCAN_MAX_CH_SIZE
      {
        HalfBound(pr, |pr.air|);
      }
    }
  }

  /** Off the 50 kHz grids every scan fits both tables, whatever is on the air. */
  lemma AlwaysFits(b: Band, seekSpace: int, pr: Profile)
    requires FullScan(b, seekSpace, pr) && seekSpace != 5
    ensures pr.nf > 0 && Fits(pr, FM_SCAN_MAX_CH_SIZE)
  {
    HalfBound(pr, |pr.air|);
  }
}
