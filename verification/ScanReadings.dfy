/** The ingredients of the scan in terms of single readings: which probes are noise samples, which channels
    are saved, where segments close and what the floor is. */
module ScanReadings {
  import opened Reading
  import opened ScanSpec
  import opened ScanFacts

  // ---- Noise

  /** Probe i succeeded and heard neither a station nor the phone itself. */
  predicate Noise(pr: Profile, i: int) {
    0 <= i < |pr.air| && pr.air[i].ok && !pr.air[i].valid && !pr.air[i].desense
  }

  /** p, q and i are three noise probes between which every probe failed. */
  ghost predicate Row(pr: Profile, p: int, q: int, i: int) {
    && p < q < i && Noise(pr, p) && Noise(pr, q) && Noise(pr, i)
    && (forall k :: p < k < q || q < k < i ==> !pr.air[k].ok)
  }

  lemma PrevOkIs(pr: Profile, q: nat, i: nat)
    requires q < i <= |pr.air| && pr.air[q].ok && forall k :: q < k < i ==> !pr.air[k].ok
    ensures pr.PrevOk(i) == q
  {
    pr.PrevOkMeans(i);
  }

  /** A row is a window, and its middle probe the sample. */
  lemma RowIsWindow(pr: Profile, p: int, q: int, i: int)
    requires Row(pr, p, q, i)
    ensures pr.Window(i) && pr.PrevOk(i) == q
  {
    PrevOkIs(pr, q, i);
    PrevOkIs(pr, p, q);
  }

  /** A sample is taken at channel i exactly if it completes such a row. */
  lemma WindowExactly(pr: Profile, i: nat)
    requires i < |pr.air|
    ensures pr.Window(i) <==> exists p, q :: Row(pr, p, q, i)
  {
    if pr.Window(i) {
      var q := pr.PrevOk(i);
      pr.PrevOkMeans(i);
      pr.PrevOkMeans(q);
      assert Row(pr, pr.PrevOk(q), q, i);
    }
    if p, q :| Row(pr, p, q, i) {
      RowIsWindow(pr, p, q, i);
    }
  }

  /** Sample number j is the strength of the middle probe of the row that channel ends[j] completes. */
  ghost predicate SampleAt(pr: Profile, i: int, x: int) {
    exists p, q :: Row(pr, p, q, i) && x == pr.air[q].rssi
  }

  /** The samples of a segment: one for each channel of it that completes a row, in order. */
  lemma {:induction false} SamplesExactly(pr: Profile, lo: nat, hi: nat) returns (ends: seq<nat>)
    requires lo <= hi <= |pr.air|
    ensures |ends| == |pr.Samples(lo, hi)|
    ensures forall j, k :: 0 <= j < k < |ends| ==> ends[j] < ends[k]
    ensures forall i: nat :: i in ends <==> lo <= i < hi && exists p, q :: Row(pr, p, q, i)
    ensures forall j :: 0 <= j < |ends| ==> SampleAt(pr, ends[j], pr.Samples(lo, hi)[j])
    decreases hi
  {
    ends := [];
    if lo < hi {
      var i := hi - 1;
      var front := SamplesExactly(pr, lo, i);
      WindowExactly(pr, i);
      ends := front;
      assert forall k :: 0 <= k < |front| ==> front[k] in front;
      if p, q :| Row(pr, p, q, i) {
        RowIsWindow(pr, p, q, i);
        ends := front + [i];
        assert SampleAt(pr, i, pr.Samples(lo, hi)[|front|]);
      }
    }
  }

  /** The floor at a close: -306 without samples, else their mean truncated toward zero. */
  lemma FloorExactly(pr: Profile, c: int)
    requires 0 <= c < |pr.air| && pr.nf > 0
    ensures var m, f := pr.Samples(pr.LastClose(c) + 1, c + 1), pr.Floor(c);
            && (m == [] ==> f == -306)
            && (m != [] && Sum(m) >= 0 ==> 0 <= Sum(m) - f * |m| < |m|)
            && (m != [] && Sum(m) <= 0 ==> -|m| < Sum(m) - f * |m| <= 0)
  {
    var m := pr.Samples(pr.LastClose(c) + 1, c + 1);
    if m != [] {
      TruncDivMeans(Sum(m), |m|);
    }
  }

  // ---- Saved channels

  /** Probe i succeeded and found a valid station, not desensed, and strong enough for the fake-channel
      table. */
  predicate Station(pr: Profile, i: int) {
    && 0 <= i < |pr.air| && pr.air[i].ok && pr.air[i].valid && !pr.air[i].desense
    && !Severe(pr.fakes, pr.start + pr.space * i, pr.air[i].rssi)
  }

  /** a to i are stations of which none is stronger than the one before, and a begins this descent. */
  ghost predicate Descent(pr: Profile, a: int, i: int) {
    && 0 <= a <= i < |pr.air| && (forall k :: a <= k <= i ==> Station(pr, k))
    && (forall k :: a < k <= i ==> pr.air[k].rssi <= pr.air[k - 1].rssi)
    && (Station(pr, a - 1) ==> pr.air[a].rssi > pr.air[a - 1].rssi)
  }

  lemma SavedStep(pr: Profile, i: nat)
    requires i < |pr.air|
    ensures pr.Saved(i) <==> Station(pr, i) && (i > 0 && pr.Saved(i - 1) ==> pr.air[i].rssi > pr.air[i - 1].rssi)
    ensures pr.Good(i) <==> Station(pr, i)
  {
    assert pr.Freq(i) == pr.start + pr.space * i;
  }

  /** Along a descent every other channel is saved. */
  lemma {:induction false} DescentParity(pr: Profile, a: nat, i: nat)
    requires Descent(pr, a, i)
    ensures pr.Saved(i) <==> (i - a) % 2 == 0
    decreases i - a
  {
    SavedStep(pr, i);
    if a < i {
      DescentParity(pr, a, i - 1);
    } else if i > 0 {
      SavedStep(pr, i - 1);
    }
  }

  lemma {:induction false} DescentExists(pr: Profile, i: nat) returns (a: nat)
    requires i < |pr.air| && Station(pr, i)
    ensures Descent(pr, a, i)
  {
    if i > 0 && Station(pr, i - 1) && pr.air[i].rssi <= pr.air[i - 1].rssi {
      a := DescentExists(pr, i - 1);
    } else {
      a := i;
    }
  }

  /** A channel is saved exactly if it is an even number of steps down a descent of stations. */
  lemma SavedExactly(pr: Profile, i: nat)
    requires i < |pr.air|
    ensures pr.Saved(i) <==> exists a :: Descent(pr, a, i) && (i - a) % 2 == 0
  {
    SavedStep(pr, i);
    if a :| Descent(pr, a, i) && (i - a) % 2 == 0 {
      DescentParity(pr, a, i);
    }
    if pr.Saved(i) {
      var a := DescentExists(pr, i);
      DescentParity(pr, a, i);
    }
  }

  /** The run of a saved channel: saved without a break, each stronger than the one before, from a channel
      whose left neighbour is not saved. */
  lemma {:induction false} RunStartExactly(pr: Profile, i: nat)
    requires i < |pr.air| && pr.Saved(i)
    ensures var q := pr.RunStart(i);
            && q <= i && (q > 0 ==> !pr.Saved(q - 1)) && (forall k :: q <= k <= i ==> pr.Saved(k))
            && forall k :: q < k <= i ==> pr.air[k - 1].rssi < pr.air[k].rssi
  {
    if i > 0 && pr.Saved(i - 1) {
      RunStartExactly(pr, i - 1);
    }
  }

  // ---- Segments

  /** A segment closes on a border where the probe heard no station or the station was saved: not where the
      probe failed, and not where a station was discarded. */
  lemma ClosesExactly(pr: Profile, i: nat)
    requires i < |pr.air| && pr.nf > 0
    ensures pr.Closes(i) <==>
            (exists b: nat :: b > 0 && i == b * pr.nf) && ((pr.air[i].ok && !pr.air[i].valid) || pr.Saved(i))
  {
    if i > 0 && i % pr.nf == 0 {
      var b := i / pr.nf;
      assert i == b * pr.nf && b > 0;
    }
    if b: nat :| b > 0 && i == b * pr.nf {
      Multiple(b, pr.nf);
    }
  }

  lemma Multiple(b: nat, n: int)
    requires n > 0
    ensures (b * n) % n == 0 && (b > 0 ==> b * n > 0)
  {
    var d := b * n / n - b;
    assert n * d == -((b * n) % n);
    assert d <= -1 ==> n * d <= -n;
  }

  /** A saved channel is pruned exactly if the first close since its run began comes at or after it and finds
      it less than 10 above the floor. */
  lemma PrunedBelowTen(pr: Profile, p: nat, n: nat)
    requires p < |pr.air| && pr.Saved(p) && pr.nf > 0 && n <= |pr.air|
    ensures pr.Pruned(p, n) <==>
            exists c :: p <= c < n && FirstCloseFrom(pr, pr.RunStart(p), c) && pr.air[p].rssi < pr.Floor(c) + 10
  {
    PrunedExactly(pr, p, n);
    assert forall c :: p <= c < n ==>
      (pr.air[p].rssi < pr.Floor(c) + 10 <==> pr.Rssi(p) < pr.Floor(c) + NOISE_FLOOR_OFFSET);
  }
}
