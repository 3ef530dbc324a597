/** The station scan of fmr_core.cpp, described without its loop variables: which channels of a
    band are saved, which noise samples a segment holds, and which saved channels are pruned. */
module ScanSpec {
  import opened Reading

  const RSSI_TH := -296
  const NOISE_FLOOR_OFFSET := 10

  function Sum(s: seq<int>): int {
    if s == [] then 0 else Sum(s[..|s| - 1]) + s[|s| - 1]
  }

  /** One entry of the work table (struct fm_cqi). */
  datatype Slot = Slot(ch: int, rssi: int, reserve: int)

  /** A band as one sweep sees it: the grid and what the hardware answers at each grid index.
      Each index is probed exactly once, so `air` is an arbitrary oracle. */
  datatype Profile = Profile(start: int, space: int, nf: int, fakes: seq<FakeChannel>, air: seq<Reading>) {

    function Freq(i: int): int { start + space * i }

    /** The first n grid frequencies. */
    function Grid(n: nat): seq<int> { seq(n, i => Freq(i)) }

    function Rssi(i: int): int
      requires 0 <= i < |air|
    {
      air[i].rssi
    }

    predicate Good(i: int)
      requires 0 <= i < |air|
    {
      Acceptable(fakes, Freq(i), air[i])
    }

    // ---- Which channels are stored

    /** Channel i is written to the table when the sweep reaches it: it is acceptable, and if its
        left neighbour was written too, it is strictly stronger than that neighbour. */
    predicate Saved(i: int)
      requires 0 <= i < |air|
    {
      Good(i) && (i > 0 && Saved(i - 1) ==> Rssi(i) > Rssi(i - 1))
    }

    /** Channel i is still in the table after n channels: nothing has covered it. */
    predicate Stored(i: int, n: int)
      requires 0 <= i < n <= |air|
    {
      Saved(i) && (i + 1 < n ==> !Saved(i + 1))
    }

    /** The stored channels after n channels, in table order. */
    function Picks(n: nat): (s: seq<nat>)
      requires n <= |air|
      ensures forall j :: 0 <= j < |s| ==> s[j] < n
      ensures n > 0 && Saved(n - 1) ==> s != [] && s[|s| - 1] == n - 1
    {
      if n == 0 then []
      else if !Saved(n - 1) then Picks(n - 1)
      else if n >= 2 && Saved(n - 2) then Picks(n - 1)[..|Picks(n - 1)| - 1] + [n - 1]
      else Picks(n - 1) + [n - 1]
    }

    /** First channel of the unbroken run of saved channels that ends at i. */
    function RunStart(i: nat): (q: nat)
      requires i < |air| && Saved(i)
      ensures q <= i && Saved(q) && (q > 0 ==> !Saved(q - 1))
    {
      if i > 0 && Saved(i - 1) then RunStart(i - 1) else i
    }

    // ---- The noise floor

    predicate Quiet(i: int)
      requires i < |air|
    {
      0 <= i && air[i].ok && !air[i].valid && !air[i].desense
    }

    /** The last channel before i whose probe succeeded, or -1. */
    function PrevOk(i: int): (p: int)
      requires i <= |air|
      ensures p < i || (i < 0 && p == -1)
      ensures -1 <= p
    {
      if i <= 0 then -1 else if air[i - 1].ok then i - 1 else PrevOk(i - 1)
    }

    /** Channel i completes three quiet probes in a row (failed probes do not interrupt a row). */
    predicate Window(i: int)
      requires 0 <= i < |air|
    {
      Quiet(i) && Quiet(PrevOk(i)) && Quiet(PrevOk(PrevOk(i)))
    }

    /** Middle samples of the windows completed at channels lo .. hi-1. */
    function Samples(lo: int, hi: int): (s: seq<int>)
      requires 0 <= lo && hi <= |air|
      decreases hi
    {
      if hi <= lo then []
      else if Window(hi - 1) then Samples(lo, hi - 1) + [Rssi(PrevOk(hi - 1))]
      else Samples(lo, hi - 1)
    }

    /** Channel i closes a segment: it sits on a segment border and the sweep neither failed to
        probe it nor discarded it as a valid but unstored channel. */
    predicate Closes(i: int)
      requires 0 <= i < |air| && nf > 0
    {
      i != 0 && i % nf == 0 && air[i].ok && (air[i].valid ==> Saved(i))
    }

    function LastClose(n: int): (c: int)
      requires 0 <= n <= |air| && nf > 0
      ensures -1 <= c < n
    {
      if n == 0 then -1 else if Closes(n - 1) then n - 1 else LastClose(n - 1)
    }

    /** Noise floor computed when channel c closes a segment. */
    function Floor(c: int): int
      requires 0 <= c < |air| && nf > 0
    {
      var m := Samples(LastClose(c) + 1, c + 1);
      if m == [] then RSSI_TH - NOISE_FLOOR_OFFSET else TruncDiv(Sum(m), |m|)
    }

    /** The stored channel p is judged noise at close c: c is the first close since the run of p
        began, and p is weaker than the floor plus the offset. */
    predicate PrunedAt(p: nat, c: int)
      requires p < |air| && Saved(p) && nf > 0
      requires 0 <= c < |air|
    {
      p <= c && Closes(c) && LastClose(c) < RunStart(p) && Rssi(p) < Floor(c) + NOISE_FLOOR_OFFSET
    }

    predicate Pruned(p: nat, n: int)
      requires p < |air| && Saved(p) && nf > 0
      requires n <= |air|
    {
      exists c :: 0 <= c < n && PrunedAt(p, c)
    }

    /** The work table after n channels, judged at every close before channel m. */
    function Slots(n: nat, m: int): (s: seq<Slot>)
      requires n <= |air| && m <= |air| && nf > 0
      ensures |s| == |Picks(n)|
    {
      PicksSaved(n);
      seq(|Picks(n)|, j requires 0 <= j < |Picks(n)| =>
        var p := Picks(n)[j]; Slot(Freq(p), Rssi(p), if Pruned(p, m) then 0 else 1))
    }

    /** PrevOk is the last channel before i whose probe succeeded. */
    lemma {:induction false} PrevOkMeans(i: nat)
      requires i <= |air|
      ensures PrevOk(i) >= 0 ==> air[PrevOk(i)].ok
      ensures forall k :: PrevOk(i) < k < i ==> !air[k].ok
    {
      if i > 0 {
        PrevOkMeans(i - 1);
      }
    }

    /** LastClose is the last close before channel n. */
    lemma {:induction false} LastCloseMeans(n: nat)
      requires n <= |air| && nf > 0
      ensures LastClose(n) >= 0 ==> Closes(LastClose(n))
      ensures forall k :: LastClose(n) < k < n ==> !Closes(k)
    {
      if n > 0 {
        LastCloseMeans(n - 1);
      }
    }

    lemma PicksSaved(n: nat)
      requires n <= |air|
      ensures forall j :: 0 <= j < |Picks(n)| ==> Saved(Picks(n)[j])
    {
    }
  }
}
