/** FMR_scan_Channels: the sweep over the band, the sort and the compaction, proved against the
    loop-free description in ScanSpec. */
module Scan {
  import opened Reading
  import opened ScanSpec
  import opened ScanFacts
  import opened ScanSort

  const CQI_CH_NUM_MAX := 255

  /** The work table after n channels, judged at the closes before channel m. */
  ghost predicate TableOk(pr: Profile, a: seq<Slot>, n: nat, m: nat)
    requires n <= |pr.air| && m <= |pr.air| && pr.nf > 0
  {
    |pr.Picks(n)| <= |a| && a[..|pr.Picks(n)|] == pr.Slots(n, m)
  }

  /** The two-sample memory of the noise detector after n channels. */
  ghost predicate WindowOk(pr: Profile, f: seq<bool>, r: seq<int>, n: nat)
    requires n <= |pr.air|
  {
    var q := pr.PrevOk(n);
    var p := pr.PrevOk(q);
    && |f| == 3 && |r| == 3 && !f[2]
    && f[0] == pr.Quiet(q)
    && f[1] == (pr.Quiet(q) && pr.Quiet(p))
    && (f[0] && !f[1] ==> r[0] == pr.Rssi(q))
    && (f[1] ==> r[0] == pr.Rssi(p) && r[1] == pr.Rssi(q))
  }

  // ---- Noise detector

  /** FMR_NoiseFloorDetect: record a quiet sample; true when it is the third in a row. */
  method NoiseFloorDetect(f: array<bool>, rssi: int, r: array<int>) returns (third: bool)
    requires f.Length == 3 && r.Length == 3
    modifies f, r
    ensures third == old(f[0] && f[1])
    ensures f[..] == if third then old(f[..])[2 := true]
                     else if old(f[0]) then old(f[..])[1 := true] else old(f[..])[0 := true]
    ensures r[..] == if third then old(r[..])[2 := rssi]
                     else if old(f[0]) then old(r[..])[1 := rssi] else old(r[..])[0 := rssi]
  {
    if f[0] {
      if f[1] {
        r[2] := rssi;
        f[2] := true;
        return true;
      } else {
        r[1] := rssi;
        f[1] := true;
      }
    } else {
      r[0] := rssi;
      f[0] := true;
    }
    return false;
  }

  method Reset(f: array<bool>)
    requires f.Length == 3
    modifies f
    ensures f[..] == [false, false, false]
  {
    f[0], f[1], f[2] := false, false, false;
  }

  /** The branch for a probed but not valid channel: adds the middle sample of a completed window. */
  method NoiseSample(pr: Profile, i: nat, f: array<bool>, r: array<int>, pacc: int, nacc: int)
    returns (pacc': int, nacc': int)
    requires i < |pr.air| && pr.air[i].ok && !pr.air[i].valid
    requires f.Length == 3 && r.Length == 3 && WindowOk(pr, f[..], r[..], i)
    modifies f, r
    ensures WindowOk(pr, f[..], r[..], i + 1)
    ensures pacc' == pacc + if pr.Window(i) then pr.Rssi(pr.PrevOk(i)) else 0
    ensures nacc' == nacc + if pr.Window(i) then 1 else 0
  {
    pacc', nacc' := pacc, nacc;
    if !pr.air[i].desense {
      var third := NoiseFloorDetect(f, pr.air[i].rssi, r);
      if third {
        pacc' := pacc + r[1];
        nacc' := nacc + 1;
        f[0] := f[1];
        r[0] := r[1];
        f[1] := f[2];
        r[1] := r[2];
        f[2] := false;
        r[2] := 0;
      }
    } else {
      Reset(f);
    }
  }

  // ---- Work table

  /** The branch for a valid channel that is not desensed: ignore it, cover its neighbour's slot or
      take a new slot. */
  method StoreChannel(fakes: seq<FakeChannel>, freq: int, rssi: int, tbl: array<Slot>, num: nat, lastExist: bool)
    returns (num': nat, saved: bool)
    requires num <= tbl.Length && (num < tbl.Length || (lastExist && 0 < num) || Severe(fakes, freq, rssi))
    modifies tbl
    ensures saved == (!Severe(fakes, freq, rssi) && (lastExist && num > 0 ==> rssi > old(tbl[num - 1].rssi)))
    ensures num' == if saved && !(lastExist && num > 0) then num + 1 else num
    ensures num' <= tbl.Length
    ensures tbl[..num'] == if !saved then old(tbl[..num])
                           else old(tbl[..num' - 1]) + [Slot(freq, rssi, 1)]
  {
    num' := num;
    if lastExist && num > 0 {
      if rssi > tbl[num - 1].rssi {
        var severe := SevereDesense(fakes, freq, rssi);
        if severe {
          return num, false;
        }
        tbl[num - 1] := Slot(freq, rssi, 1);
      } else {
        return num, false;
      }
    } else {
      var severe := SevereDesense(fakes, freq, rssi);
      if severe {
        return num, false;
      }
      tbl[num] := Slot(freq, rssi, 1);
      num' := num + 1;
    }
    saved := true;
  }

  /** Storing channel i: what becomes of the specified table. */
  lemma SlotsStep(pr: Profile, i: nat)
    requires i < |pr.air| && pr.nf > 0
    ensures !pr.Saved(i) ==> pr.Slots(i + 1, i) == pr.Slots(i, i)
    ensures pr.Saved(i) && i > 0 && pr.Saved(i - 1) ==>
              |pr.Slots(i, i)| > 0 && pr.Slots(i + 1, i)
                 == pr.Slots(i, i)[..|pr.Slots(i, i)| - 1] + [Slot(pr.Freq(i), pr.Rssi(i), 1)]
    ensures pr.Saved(i) && (i > 0 ==> !pr.Saved(i - 1)) ==>
              pr.Slots(i + 1, i) == pr.Slots(i, i) + [Slot(pr.Freq(i), pr.Rssi(i), 1)]
    ensures i > 0 && pr.Saved(i - 1) ==>
              |pr.Slots(i, i)| > 0 && pr.Slots(i, i)[|pr.Slots(i, i)| - 1].rssi == pr.Rssi(i - 1)
  {
    assert pr.Saved(i) ==> !pr.Pruned(i, i);
  }

  /** What one segment judgement does to a table. */
  function Judged(s: seq<Slot>, nfIdx: nat, noise: int): seq<Slot> {
    seq(|s|, k requires 0 <= k < |s| =>
      if k >= nfIdx && s[k].rssi < noise + NOISE_FLOOR_OFFSET then s[k].(reserve := 0) else s[k])
  }

  /** The segment judgement: the inner loop over the slots stored since the last close. */
  method PruneSegment(tbl: array<Slot>, nfIdx: nat, num: nat, noise: int) returns (j: nat)
    requires nfIdx <= num <= tbl.Length
    modifies tbl
    ensures tbl[..num] == Judged(old(tbl[..num]), nfIdx, noise) && j == num
  {
    j := nfIdx;
    while j < num
      invariant nfIdx <= j <= num
      invariant tbl[..j] == Judged(old(tbl[..num]), nfIdx, noise)[..j]
      invariant tbl[j..] == old(tbl[j..])
    {
      if tbl[j].rssi < noise + NOISE_FLOOR_OFFSET {
        tbl[j] := tbl[j].(reserve := 0);
      }
      j := j + 1;
    }
  }

  /** Closing a segment at channel c gives exactly the specified verdicts. */
  lemma SlotsClose(pr: Profile, c: nat)
    requires c < |pr.air| && pr.nf > 0 && pr.Closes(c)
    ensures pr.Slots(c + 1, c + 1)
         == Judged(pr.Slots(c + 1, c), |pr.Picks(pr.LastClose(c) + 1)|, pr.Floor(c))
  {
    var m := pr.LastClose(c) + 1;
    var s, t := pr.Slots(c + 1, c + 1), Judged(pr.Slots(c + 1, c), |pr.Picks(m)|, pr.Floor(c));
    forall j | 0 <= j < |s| ensures s[j] == t[j] {
      SlotAge(pr, c + 1, m, j);
      PrunedStep(pr, pr.Picks(c + 1)[j], c);
    }
  }

  // ---- The sweep

  /** Everything the sweep's variables mean after n channels. */
  ghost predicate SweepOk(pr: Profile, n: nat, tbl: seq<Slot>, num: nat, lastExist: bool,
                          f: seq<bool>, r: seq<int>, pacc: int, nacc: int, nfIdx: nat)
    requires n <= |pr.air| && pr.nf > 0
  {
    && TableOk(pr, tbl, n, n) && num == |pr.Picks(n)|
    && lastExist == (n > 0 && pr.Saved(n - 1))
    && WindowOk(pr, f, r, n)
    && pacc == Sum(pr.Samples(pr.LastClose(n) + 1, n))
    && nacc == |pr.Samples(pr.LastClose(n) + 1, n)|
    && nfIdx == |pr.Picks(pr.LastClose(n) + 1)|
  }

  /** The same between recording channel i and closing a segment at it. */
  ghost predicate RecordedOk(pr: Profile, i: nat, tbl: seq<Slot>, num: nat, lastExist: bool,
                             f: seq<bool>, r: seq<int>, pacc: int, nacc: int, nfIdx: nat)
    requires i < |pr.air| && pr.nf > 0
  {
    && TableOk(pr, tbl, i + 1, i) && num == |pr.Picks(i + 1)|
    && lastExist == pr.Saved(i)
    && WindowOk(pr, f, r, i + 1)
    && pacc == Sum(pr.Samples(pr.LastClose(i) + 1, i + 1))
    && nacc == |pr.Samples(pr.LastClose(i) + 1, i + 1)|
    && nfIdx == |pr.Picks(pr.LastClose(i) + 1)|
  }

  lemma SumSnoc(s: seq<int>, x: int)
    ensures Sum(s + [x]) == Sum(s) + x
  {
    assert (s + [x])[..|s|] == s;
  }

  lemma SampleStep(pr: Profile, m: nat, i: nat)
    requires m <= i < |pr.air|
    ensures pr.Window(i) ==> Sum(pr.Samples(m, i + 1)) == Sum(pr.Samples(m, i)) + pr.Rssi(pr.PrevOk(i))
    ensures pr.Window(i) ==> |pr.Samples(m, i + 1)| == |pr.Samples(m, i)| + 1
    ensures !pr.Window(i) ==> pr.Samples(m, i + 1) == pr.Samples(m, i)
  {
    if pr.Window(i) {
      SumSnoc(pr.Samples(m, i), pr.Rssi(pr.PrevOk(i)));
    }
  }

  /** A channel that does not close a segment leaves the judgements as they are. */
  lemma NoCloseStep(pr: Profile, i: nat)
    requires i < |pr.air| && pr.nf > 0 && !pr.Closes(i)
    ensures pr.Slots(i + 1, i + 1) == pr.Slots(i + 1, i)
    ensures pr.LastClose(i + 1) == pr.LastClose(i)
  {
    var s, t := pr.Slots(i + 1, i + 1), pr.Slots(i + 1, i);
    forall j | 0 <= j < |s| ensures s[j] == t[j] {
      pr.PicksSaved(i + 1);
      PrunedStep(pr, pr.Picks(i + 1)[j], i);
    }
  }

  /** A channel that is not saved leaves the table alone. */
  lemma Unsaved(pr: Profile, i: nat)
    requires i < |pr.air| && pr.nf > 0 && !pr.Saved(i)
    ensures pr.Picks(i + 1) == pr.Picks(i) && pr.Slots(i + 1, i) == pr.Slots(i, i)
  {
    SlotsStep(pr, i);
  }

  lemma TableUnsaved(pr: Profile, i: nat, tbl: seq<Slot>)
    requires i < |pr.air| && pr.nf > 0 && !pr.Saved(i) && TableOk(pr, tbl, i, i)
    ensures TableOk(pr, tbl, i + 1, i) && pr.Picks(i + 1) == pr.Picks(i)
  {
    Unsaved(pr, i);
  }

  /** Recording a quiet or desensed channel that is not valid. */
  lemma QuietRecorded(pr: Profile, i: nat, tbl: seq<Slot>, num: nat, lastExist: bool, f: seq<bool>, f': seq<bool>,
                      r: seq<int>, r': seq<int>, pacc: int, nacc: int, pacc': int, nacc': int, nfIdx: nat)
    requires i < |pr.air| && pr.nf > 0 && pr.air[i].ok && !pr.air[i].valid
    requires SweepOk(pr, i, tbl, num, lastExist, f, r, pacc, nacc, nfIdx)
    requires WindowOk(pr, f', r', i + 1)
    requires pacc' == pacc + if pr.Window(i) then pr.Rssi(pr.PrevOk(i)) else 0
    requires nacc' == nacc + if pr.Window(i) then 1 else 0
    ensures RecordedOk(pr, i, tbl, num, false, f', r', pacc', nacc', nfIdx)
  {
    assert !pr.Saved(i);
    TableUnsaved(pr, i, tbl);
    SampleStep(pr, pr.LastClose(i) + 1, i);
  }

  /** What StoreChannel did to the table is what the specification wants. */
  lemma ValidStored(pr: Profile, i: nat, tbl: seq<Slot>, tbl': seq<Slot>, num: nat, num': nat,
                    lastExist: bool, saved: bool)
    requires i < |pr.air| && pr.nf > 0 && pr.air[i].ok && pr.air[i].valid && !pr.air[i].desense
    requires TableOk(pr, tbl, i, i) && num == |pr.Picks(i)| && lastExist == (i > 0 && pr.Saved(i - 1))
    requires lastExist ==> num > 0
    requires saved == (!Severe(pr.fakes, pr.Freq(i), pr.air[i].rssi)
                       && (lastExist ==> pr.air[i].rssi > tbl[num - 1].rssi))
    requires num' == if saved && !lastExist then num + 1 else num
    requires num' <= |tbl'| && tbl'[..num'] == if !saved then tbl[..num]
                                               else tbl[..num' - 1] + [Slot(pr.Freq(i), pr.air[i].rssi, 1)]
    ensures TableOk(pr, tbl', i + 1, i) && num' == |pr.Picks(i + 1)| && saved == pr.Saved(i)
  {
    SlotsStep(pr, i);
    var before := pr.Slots(i, i);
    assert before == tbl[..num];
    assert lastExist ==> before[num - 1] == tbl[num - 1];
    assert saved == pr.Saved(i);
    if saved {
      assert tbl[..num' - 1] == before[..num' - 1];
    }
    assert tbl'[..num'] == pr.Slots(i + 1, i);
  }

  /** Recording a valid channel. */
  lemma ValidRecorded(pr: Profile, i: nat, tbl: seq<Slot>, tbl': seq<Slot>, num: nat, num': nat, lastExist: bool,
                      saved: bool, f: seq<bool>, r: seq<int>, pacc: int, nacc: int, nfIdx: nat)
    requires i < |pr.air| && pr.nf > 0 && pr.air[i].ok && pr.air[i].valid
    requires SweepOk(pr, i, tbl, num, lastExist, f, r, pacc, nacc, nfIdx)
    requires TableOk(pr, tbl', i + 1, i) && num' == |pr.Picks(i + 1)| && saved == pr.Saved(i)
    ensures RecordedOk(pr, i, tbl', num', saved, [false, false, false], r, pacc, nacc, nfIdx)
  {
    SampleStep(pr, pr.LastClose(i) + 1, i);
    assert pr.PrevOk(i + 1) == i && !pr.Quiet(i);
  }

  /** A channel that takes a new slot finds room for it. */
  lemma RoomFor(pr: Profile, i: nat, tbl: seq<Slot>, num: nat, lastExist: bool,
                f: seq<bool>, r: seq<int>, pacc: int, nacc: int, nfIdx: nat)
    requires i < |pr.air| && pr.nf > 0 && pr.air[i].ok && pr.air[i].valid && !pr.air[i].desense
    requires SweepOk(pr, i, tbl, num, lastExist, f, r, pacc, nacc, nfIdx)
    requires |pr.Picks(|pr.air|)| <= |tbl|
    ensures num <= |tbl| && (lastExist ==> num > 0)
    ensures num < |tbl| || (lastExist && 0 < num) || Severe(pr.fakes, pr.Freq(i), pr.air[i].rssi)
  {
    PicksGrow(pr, i + 1, |pr.air|);
    if !lastExist && !Severe(pr.fakes, pr.Freq(i), pr.air[i].rssi) {
      assert pr.Saved(i);
    }
  }

  /** The slots to be judged at a close are a stretch of the table. */
  lemma SegmentBounds(pr: Profile, i: nat, tbl: seq<Slot>, num: nat, lastExist: bool,
                      f: seq<bool>, r: seq<int>, pacc: int, nacc: int, nfIdx: nat)
    requires i < |pr.air| && pr.nf > 0
    requires RecordedOk(pr, i, tbl, num, lastExist, f, r, pacc, nacc, nfIdx)
    ensures nfIdx <= num <= |tbl|
  {
    PicksGrow(pr, pr.LastClose(i) + 1, i + 1);
  }

  /** Judging the slots since the last close against the floor of the closed segment. */
  lemma Closed(pr: Profile, i: nat, tbl: seq<Slot>, tbl': seq<Slot>, num: nat, lastExist: bool,
               f: seq<bool>, r: seq<int>, pacc: int, nacc: int, nfIdx: nat, noise: int)
    requires i < |pr.air| && pr.nf > 0 && pr.Closes(i)
    requires RecordedOk(pr, i, tbl, num, lastExist, f, r, pacc, nacc, nfIdx)
    requires noise == if nacc > 0 then TruncDiv(pacc, nacc) else RSSI_TH - NOISE_FLOOR_OFFSET
    requires |tbl'| == |tbl| && tbl'[..num] == Judged(tbl[..num], nfIdx, noise)
    ensures SweepOk(pr, i + 1, tbl', num, lastExist, f, r, 0, 0, num)
  {
    assert noise == pr.Floor(i);
    SlotsClose(pr, i);
    assert pr.LastClose(i + 1) == i;
    assert pr.Samples(i + 1, i + 1) == [];
  }

  method CloseSegment(pr: Profile, i: nat, tbl: array<Slot>, num: nat, ghost lastExist: bool,
                      ghost f: seq<bool>, ghost r: seq<int>, pacc: int, nacc: int, nfIdx: nat)
    returns (nfIdx': nat)
    requires i < |pr.air| && pr.nf > 0 && pr.Closes(i)
    requires tbl.Length <= CQI_CH_NUM_MAX
    requires RecordedOk(pr, i, tbl[..], num, lastExist, f, r, pacc, nacc, nfIdx)
    modifies tbl
    ensures SweepOk(pr, i + 1, tbl[..], num, lastExist, f, r, 0, 0, nfIdx')
  {
    var noise := if nacc > 0 then TruncDiv(pacc, nacc) else RSSI_TH - NOISE_FLOOR_OFFSET;
    ghost var before := tbl[..];
    SegmentBounds(pr, i, before, num, lastExist, f, r, pacc, nacc, nfIdx);
    var j := PruneSegment(tbl, nfIdx, num, noise);
    nfIdx' := j % 256;
    assert before[..num] == old(tbl[..num]);
    Closed(pr, i, before, tbl[..], num, lastExist, f, r, pacc, nacc, nfIdx, noise);
  }

  lemma Skip(pr: Profile, i: nat, tbl: seq<Slot>, num: nat, lastExist: bool,
             f: seq<bool>, r: seq<int>, pacc: int, nacc: int, nfIdx: nat)
    requires i < |pr.air| && pr.nf > 0 && !pr.Closes(i)
    requires RecordedOk(pr, i, tbl, num, lastExist, f, r, pacc, nacc, nfIdx)
    ensures SweepOk(pr, i + 1, tbl, num, lastExist, f, r, pacc, nacc, nfIdx)
  {
    NoCloseStep(pr, i);
  }

  lemma Discard(pr: Profile, i: nat, tbl: seq<Slot>, num: nat, lastExist: bool,
                f: seq<bool>, f': seq<bool>, r: seq<int>, pacc: int, nacc: int, nfIdx: nat)
    requires i < |pr.air| && pr.nf > 0
    requires SweepOk(pr, i, tbl, num, lastExist, f, r, pacc, nacc, nfIdx)
    requires if pr.air[i].ok then pr.air[i].valid && pr.air[i].desense && f' == [false, false, false] else f' == f
    ensures SweepOk(pr, i + 1, tbl, num, false, f', r, pacc, nacc, nfIdx)
  {
    Unsaved(pr, i);
    SampleStep(pr, pr.LastClose(i) + 1, i);
    NoCloseStep(pr, i);
  }

  /** One iteration of the band loop after its stop check. */
  method Visit(pr: Profile, i: nat, tbl: array<Slot>, num: nat, lastExist: bool,
               f: array<bool>, r: array<int>, pacc: int, nacc: int, nfIdx: nat)
    returns (num': nat, last': bool, pacc': int, nacc': int, nfIdx': nat)
    requires i < |pr.air| && pr.nf > 0
    requires |pr.Picks(|pr.air|)| <= tbl.Length <= CQI_CH_NUM_MAX
    requires f.Length == 3 && r.Length == 3
    requires SweepOk(pr, i, tbl[..], num, lastExist, f[..], r[..], pacc, nacc, nfIdx)
    modifies tbl, f, r
    ensures SweepOk(pr, i + 1, tbl[..], num', last', f[..], r[..], pacc', nacc', nfIdx')
  {
    num', last', pacc', nacc', nfIdx' := num, false, pacc, nacc, nfIdx;
    var here := pr.air[i];
    ghost var f0 := f[..];
    if !here.ok {
      Discard(pr, i, tbl[..], num, lastExist, f0, f[..], r[..], pacc, nacc, nfIdx);
      return;
    }
    if here.valid {
      if here.desense {
        Reset(f);
        Discard(pr, i, tbl[..], num, lastExist, f0, f[..], r[..], pacc, nacc, nfIdx);
        return;
      }
      ghost var before := tbl[..];
      Reset(f);
      RoomFor(pr, i, before, num, lastExist, f0, r[..], pacc, nacc, nfIdx);
      num', last' := StoreChannel(pr.fakes, pr.Freq(i), here.rssi, tbl, num, lastExist);
      assert before[..num] == old(tbl[..num]);
      ValidStored(pr, i, before, tbl[..], num, num', lastExist, last');
      ValidRecorded(pr, i, before, tbl[..], num, num', lastExist, last', f0, r[..], pacc, nacc, nfIdx);
      if !last' {
        Skip(pr, i, tbl[..], num', last', f[..], r[..], pacc, nacc, nfIdx);
        return;
      }
    } else {
      ghost var r0 := r[..];
      pacc', nacc' := NoiseSample(pr, i, f, r, pacc, nacc);
      QuietRecorded(pr, i, tbl[..], num, lastExist, f0, f[..], r0, r[..], pacc, nacc, pacc', nacc', nfIdx);
    }
    if i % pr.nf == 0 && i != 0 {
      nfIdx' := CloseSegment(pr, i, tbl, num', last', f[..], r[..], pacc', nacc', nfIdx);
      pacc', nacc' := 0, 0;
    } else {
      Skip(pr, i, tbl[..], num', last', f[..], r[..], pacc', nacc', nfIdx);
    }
  }

  // ---- Result

  /** The reserved slots' frequencies, in table order; at 100 kHz spacing in units of 100 kHz. */
  function Emit(s: seq<Slot>, space: int): (t: seq<int>)
    ensures |t| <= |s|
  {
    if s == [] then []
    else
      var x := s[|s| - 1];
      Emit(s[..|s| - 1], space) + if x.reserve == 1 then [Unit(x.ch, space)] else []
  }

  function Unit(freq: int, space: int): int {
    if space == 10 then TruncDiv(freq, 10) else freq
  }

  lemma EmitStep(s: seq<Slot>, i: nat, space: int)
    requires i < |s|
    ensures Emit(s[..i + 1], space) == Emit(s[..i], space) + if s[i].reserve == 1 then [Unit(s[i].ch, space)] else []
  {
    assert s[..i + 1][..i] == s[..i];
  }

  lemma {:induction false} EmitGrows(s: seq<Slot>, i: nat, space: int)
    requires i <= |s|
    ensures |Emit(s[..i], space)| <= |Emit(s, space)|
    decreases |s| - i
  {
    if i == |s| {
      assert s[..i] == s;
    } else {
      EmitStep(s, i, space);
      EmitGrows(s, i + 1, space);
    }
  }

  /** Writing behind the n results already there. */
  lemma AppendResult(out: seq<int>, e: seq<int>, o: seq<int>, n: nat, x: int)
    requires n == |e| < |o| && out == e + o[n..]
    ensures n < |out| && out[n := x] == (e + [x]) + o[n + 1..]
  {
  }

  /** One slot of the compaction: divided in place and written behind the results. */
  method CompactSlot(tbl: array<Slot>, i: nat, space: int, out: array<int>, cnt: nat) returns (cnt': nat)
    requires i < tbl.Length && (tbl[i].reserve == 1 ==> cnt < out.Length)
    modifies tbl, out
    ensures tbl[i + 1..] == old(tbl[i + 1..])
    ensures if old(tbl[i].reserve) == 1
            then cnt' == cnt + 1 && out[..] == old(out[..])[cnt := Unit(old(tbl[i].ch), space)]
            else cnt' == cnt && out[..] == old(out[..])
  {
    cnt' := cnt;
    if tbl[i].reserve == 1 {
      if space == 10 {
        tbl[i] := tbl[i].(ch := TruncDiv(tbl[i].ch, 10));
      }
      out[cnt] := tbl[i].ch;
      cnt' := cnt + 1;
    }
  }

  /** The results after i slots, in front of what the result table held before. */
  ghost predicate Compacted(s: seq<Slot>, i: nat, space: int, o: seq<int>, out: seq<int>, cnt: nat)
    requires i <= |s|
  {
    var e := Emit(s[..i], space);
    cnt == |e| <= |o| && out == e + o[cnt..]
  }

  lemma CompactStep(s: seq<Slot>, i: nat, space: int, o: seq<int>, out: seq<int>, cnt: nat)
    requires i < |s| && Compacted(s, i, space, o, out, cnt) && |Emit(s, space)| <= |o|
    ensures if s[i].reserve == 1
            then cnt < |out| && Compacted(s, i + 1, space, o, out[cnt := Unit(s[i].ch, space)], cnt + 1)
            else Compacted(s, i + 1, space, o, out, cnt)
  {
    EmitStep(s, i, space);
    EmitGrows(s, i + 1, space);
    if s[i].reserve == 1 {
      AppendResult(out, Emit(s[..i], space), o, cnt, Unit(s[i].ch, space));
    }
  }

  /** The compaction loop. */
  method Compact(tbl: array<Slot>, num: nat, space: int, out: array<int>) returns (cnt: nat)
    requires num <= tbl.Length && |Emit(tbl[..num], space)| <= out.Length
    modifies tbl, out
    ensures cnt <= num && cnt <= out.Length && out[..cnt] == Emit(old(tbl[..num]), space)
    ensures out[cnt..] == old(out[cnt..])
  {
    ghost var s, t, o := tbl[..num], tbl[..], out[..];
    cnt := 0;
    for i := 0 to num
      invariant tbl[i..] == t[i..]
      invariant Compacted(s, i, space, o, out[..], cnt)
    {
      assert tbl[i] == tbl[i..][0] == s[i];
      CompactStep(s, i, space, o, out[..], cnt);
      cnt := CompactSlot(tbl, i, space, out, cnt);
    }
    assert s[..num] == s;
    assert out[..cnt] == Emit(s, space) && out[cnt..] == o[cnt..];
  }

  /** What a completed scan of the whole band reports. */
  ghost predicate ScanResult(pr: Profile, order: Order, out: seq<int>)
    requires pr.nf > 0
  {
    exists t :: StableSort(order, pr.Slots(|pr.air|, |pr.air|), t) && out == Emit(t, pr.space)
  }

  lemma {:induction false} EmitSplit(s: seq<Slot>, t: seq<Slot>, space: int)
    ensures Emit(s + t, space) == Emit(s, space) + Emit(t, space)
  {
    if t == [] {
      assert s + t == s;
    } else {
      var n := |t| - 1;
      EmitSplit(s, t[..n], space);
      assert (s + t)[..|s + t| - 1] == s + t[..n];
    }
  }

  lemma EmitWithout(t: seq<Slot>, k: nat, space: int)
    requires k < |t|
    ensures |Emit(t, space)| == |Emit(t[..k] + t[k + 1..], space)| + (if t[k].reserve == 1 then 1 else 0)
  {
    var lo, hi := t[..k], t[k + 1..];
    assert t == lo + [t[k]] + hi;
    EmitSplit(lo + [t[k]], hi, space);
    EmitSplit(lo, [t[k]], space);
    EmitSplit(lo, hi, space);
    assert [t[k]][..0] == [];
  }

  lemma EmitHead(s: seq<Slot>, space: int)
    requires s != []
    ensures |Emit(s, space)| == |Emit(s[1..], space)| + (if s[0].reserve == 1 then 1 else 0)
  {
    EmitWithout(s, 0, space);
    assert s[..0] + s[1..] == s[1..];
  }

  lemma MultisetWithout(t: seq<Slot>, k: nat)
    requires k < |t|
    ensures multiset(t[..k] + t[k + 1..]) == multiset(t) - multiset{t[k]}
  {
    assert t == t[..k] + [t[k]] + t[k + 1..];
  }

  lemma MultisetTail(s: seq<Slot>)
    requires s != []
    ensures multiset(s[1..]) == multiset(s) - multiset{s[0]}
  {
    assert s == [s[0]] + s[1..];
  }

  /** Sequences with the same elements: the second without an occurrence of the first one's head. */
  lemma WithoutHead(s: seq<Slot>, t: seq<Slot>) returns (k: nat)
    requires s != [] && multiset(s) == multiset(t)
    ensures k < |t| && t[k] == s[0] && multiset(s[1..]) == multiset(t[..k] + t[k + 1..])
  {
    assert s[0] in multiset(s);
    k :| 0 <= k < |t| && t[k] == s[0];
    MultisetTail(s);
    MultisetWithout(t, k);
  }

  /** How many slots are reported does not depend on their order. */
  lemma {:induction false} EmitPermuted(s: seq<Slot>, t: seq<Slot>, space: int)
    requires multiset(s) == multiset(t)
    ensures |Emit(s, space)| == |Emit(t, space)|
    decreases |s|
  {
    if s == [] {
      assert |multiset(t)| == |t|;
    } else {
      var k := WithoutHead(s, t);
      EmitPermuted(s[1..], t[..k] + t[k + 1..], space);
      EmitWithout(t, k, space);
      EmitHead(s, space);
    }
  }

  /** The stored channels fit in the work table and the reported ones in a result table of `size`: what
      the source needs in order not to write beyond its tables. */
  ghost predicate Fits(pr: Profile, size: nat)
    requires pr.nf > 0
  {
    && |pr.Picks(|pr.air|)| <= CQI_CH_NUM_MAX
    && |Emit(pr.Slots(|pr.air|, |pr.air|), pr.space)| <= size
  }

  /** Setting cur_freq for channel i and handing it to the driver: the trace grows by it. */
  method RecordProbe(pr: Profile, i: nat, trace: seq<int>) returns (trace': seq<int>)
    requires trace == pr.Grid(i)
    ensures trace' == pr.Grid(i + 1)
  {
    trace' := trace + [pr.start + pr.space * i];
  }

  /** The band loop. stop[i] is the stop flag as read before channel i; `trace` records the frequencies
      probed, which are all of the grid unless the flag was seen. */
  method SweepLoop(pr: Profile, stop: seq<bool>, tbl: array<Slot>, f: array<bool>, r: array<int>)
    returns (trace: seq<int>, num: nat)
    requires pr.nf > 0 && |pr.Picks(|pr.air|)| <= tbl.Length <= CQI_CH_NUM_MAX && |stop| == |pr.air|
    requires f.Length == 3 && r.Length == 3
    requires SweepOk(pr, 0, tbl[..], 0, false, f[..], r[..], 0, 0, 0)
    modifies tbl, f, r
    ensures |trace| <= |pr.air| && trace == pr.Grid(|trace|) && forall i :: 0 <= i < |trace| ==> !stop[i]
    ensures |trace| < |pr.air| ==> stop[|trace|]
    ensures |trace| == |pr.air| ==> TableOk(pr, tbl[..], |trace|, |trace|) && num == |pr.Picks(|trace|)|
  {
    var lastExist, pacc, nacc := false, 0, 0;
    var nfIdx: nat, i: nat := 0, 0;
    num, trace := 0, [];
    while i < |pr.air|
      invariant i <= |pr.air| && trace == pr.Grid(i)
      invariant forall k :: 0 <= k < i ==> !stop[k]
      invariant SweepOk(pr, i, tbl[..], num, lastExist, f[..], r[..], pacc, nacc, nfIdx)
    {
      if stop[i] {
        return;
      }
      trace := RecordProbe(pr, i, trace);
      num, lastExist, pacc, nacc, nfIdx := Visit(pr, i, tbl, num, lastExist, f, r, pacc, nacc, nfIdx);
      i := i + 1;
    }
  }

  /** The sweep from cleared variables. */
  method Sweep(pr: Profile, stop: seq<bool>, tbl: array<Slot>) returns (trace: seq<int>, num: nat)
    requires pr.nf > 0 && |pr.Picks(|pr.air|)| <= tbl.Length <= CQI_CH_NUM_MAX && |stop| == |pr.air|
    modifies tbl
    ensures |trace| <= |pr.air| && trace == pr.Grid(|trace|) && forall i :: 0 <= i < |trace| ==> !stop[i]
    ensures |trace| < |pr.air| ==> stop[|trace|]
    ensures |trace| == |pr.air| ==> TableOk(pr, tbl[..], |trace|, |trace|) && num == |pr.Picks(|trace|)|
  {
    var f := new bool[3](_ => false);
    var r := new int[3](_ => 0);
    trace, num := SweepLoop(pr, stop, tbl, f, r);
  }

  /** FMR_scan_Channels: the result code, the number of reported channels (cnt0 is the caller's value
      before the call) and the frequencies probed. */
  method ScanChannels(pr: Profile, order: Order, stop: seq<bool>, out: array<int>, cnt0: int)
    returns (ret: int, cnt: int, trace: seq<int>)
    requires pr.nf > 0 && |stop| == |pr.air| && Fits(pr, out.Length)
    modifies out
    ensures |trace| <= |pr.air| && trace == pr.Grid(|trace|) && forall i :: 0 <= i < |trace| ==> !stop[i]
    ensures |trace| < |pr.air| ==> stop[|trace|] && ret == -1 && cnt == cnt0 && out[..] == old(out[..])
    ensures |trace| == |pr.air| && pr.Picks(|trace|) == [] ==> ret == -1 && cnt == 0 && out[..] == old(out[..])
    ensures |trace| == |pr.air| && pr.Picks(|trace|) != [] ==>
              && ret == 0 && 0 <= cnt <= out.Length
              && ScanResult(pr, order, out[..cnt]) && out[cnt..] == old(out[cnt..])
  {
    var tbl := new Slot[CQI_CH_NUM_MAX](_ => Slot(0, 0, 0));
    var num: nat;
    trace, num := Sweep(pr, stop, tbl);
    if |trace| < |pr.air| {
      return -1, cnt0, trace;
    }
    if num == 0 {
      return -1, 0, trace;
    }
    ghost var table := tbl[..num];
    assert table == pr.Slots(|trace|, |trace|);
    SortSlots(order, tbl, num);
    ghost var sorted := tbl[..num];
    StableSortPermutes(order, table, sorted);
    EmitPermuted(table, sorted, pr.space);
    var k := Compact(tbl, num, pr.space, out);
    ret, cnt := 0, k;
    assert StableSort(order, table, sorted);
  }
}
